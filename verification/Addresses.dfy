/** Which addresses count as public. */
module Addresses {
  import opened Prelude
  import opened Cidr
  import opened Ipv6Text

  // ---------------------------------------------------------------- public IPv6 addresses

  /** A network written in compressed form, with its prefix length. */
  datatype Network = Network(left: seq<string>, right: seq<string>, prefix: nat)

  function TextOf(n: Network): (s: string)
  {
    Colons(n.left) + "::" + Colons(n.right)
  }

  /** The networks `isPublicIpv6` refuses. */
  function Blocked6(): (networks: seq<Network>)
    ensures |networks| == 13 && forall i :: 0 <= i < 13 ==> networks[i].prefix <= 128
  {
    [Network([], [], 96),
     Network([], ["1"], 128),
     Network([], ["ffff", "0", "0"], 96),
     Network(["64", "ff9b"], [], 96),
     Network(["64", "ff9b", "1"], [], 48),
     Network(["100"], [], 64),
     Network(["2001"], [], 23),
     Network(["2001", "db8"], [], 32),
     Network(["2002"], [], 16),
     Network(["fc00"], [], 7),
     Network(["fe80"], [], 10),
     Network(["fec0"], [], 10),
     Network(["ff00"], [], 8)]
  }

  /** The numeric value of a blocked network, read from its text. */
  function NetworkValue(n: Network): (v: nat)
  {
    match ParseIpv6(TextOf(n)) case Success(v) => v case Failure(_) => 0
  }

  predicate IsPublic6(value: nat)
  {
    !exists i :: 0 <= i < |Blocked6()| && InCidr6(value, NetworkValue(Blocked6()[i]), Blocked6()[i].prefix)
  }

  function Num8(a: nat, b: nat, c: nat, d: nat, e: nat, f: nat, g: nat, h: nat): (v: nat)
  {
    ((((((a * 0x1_0000 + b) * 0x1_0000 + c) * 0x1_0000 + d) * 0x1_0000 + e) * 0x1_0000 + f) * 0x1_0000 + g) * 0x1_0000 + h
  }

  /** The special-purpose ranges: the first address. */
  function First6(i: nat): (first: nat)
    requires i < 13
  {
    match i
    case 0 => Num8(0x0, 0x0, 0x0, 0x0, 0x0, 0x0, 0x0, 0x0)
    case 1 => Num8(0x0, 0x0, 0x0, 0x0, 0x0, 0x0, 0x0, 0x1)
    case 2 => Num8(0x0, 0x0, 0x0, 0x0, 0x0, 0xFFFF, 0x0, 0x0)
    case 3 => Num8(0x64, 0xFF9B, 0x0, 0x0, 0x0, 0x0, 0x0, 0x0)
    case 4 => Num8(0x64, 0xFF9B, 0x1, 0x0, 0x0, 0x0, 0x0, 0x0)
    case 5 => Num8(0x100, 0x0, 0x0, 0x0, 0x0, 0x0, 0x0, 0x0)
    case 6 => Num8(0x2001, 0x0, 0x0, 0x0, 0x0, 0x0, 0x0, 0x0)
    case 7 => Num8(0x2001, 0xDB8, 0x0, 0x0, 0x0, 0x0, 0x0, 0x0)
    case 8 => Num8(0x2002, 0x0, 0x0, 0x0, 0x0, 0x0, 0x0, 0x0)
    case 9 => Num8(0xFC00, 0x0, 0x0, 0x0, 0x0, 0x0, 0x0, 0x0)
    case 10 => Num8(0xFE80, 0x0, 0x0, 0x0, 0x0, 0x0, 0x0, 0x0)
    case 11 => Num8(0xFEC0, 0x0, 0x0, 0x0, 0x0, 0x0, 0x0, 0x0)
    case _ => Num8(0xFF00, 0x0, 0x0, 0x0, 0x0, 0x0, 0x0, 0x0)
  }

  /** The special-purpose ranges: the last address. */
  function Last6(i: nat): (last: nat)
    requires i < 13
  {
    match i
    case 0 => Num8(0x0, 0x0, 0x0, 0x0, 0x0, 0x0, 0xFFFF, 0xFFFF)
    case 1 => Num8(0x0, 0x0, 0x0, 0x0, 0x0, 0x0, 0x0, 0x1)
    case 2 => Num8(0x0, 0x0, 0x0, 0x0, 0x0, 0xFFFF, 0xFFFF, 0xFFFF)
    case 3 => Num8(0x64, 0xFF9B, 0x0, 0x0, 0x0, 0x0, 0xFFFF, 0xFFFF)
    case 4 => Num8(0x64, 0xFF9B, 0x1, 0xFFFF, 0xFFFF, 0xFFFF, 0xFFFF, 0xFFFF)
    case 5 => Num8(0x100, 0x0, 0x0, 0x0, 0xFFFF, 0xFFFF, 0xFFFF, 0xFFFF)
    case 6 => Num8(0x2001, 0x1FF, 0xFFFF, 0xFFFF, 0xFFFF, 0xFFFF, 0xFFFF, 0xFFFF)
    case 7 => Num8(0x2001, 0xDB8, 0xFFFF, 0xFFFF, 0xFFFF, 0xFFFF, 0xFFFF, 0xFFFF)
    case 8 => Num8(0x2002, 0xFFFF, 0xFFFF, 0xFFFF, 0xFFFF, 0xFFFF, 0xFFFF, 0xFFFF)
    case 9 => Num8(0xFDFF, 0xFFFF, 0xFFFF, 0xFFFF, 0xFFFF, 0xFFFF, 0xFFFF, 0xFFFF)
    case 10 => Num8(0xFEBF, 0xFFFF, 0xFFFF, 0xFFFF, 0xFFFF, 0xFFFF, 0xFFFF, 0xFFFF)
    case 11 => Num8(0xFEFF, 0xFFFF, 0xFFFF, 0xFFFF, 0xFFFF, 0xFFFF, 0xFFFF, 0xFFFF)
    case _ => Num8(0xFFFF, 0xFFFF, 0xFFFF, 0xFFFF, 0xFFFF, 0xFFFF, 0xFFFF, 0xFFFF)
  }

  lemma {:induction false} LeadingZeros(n: nat, right: seq<string>)
    requires AreGroups(right)
    ensures AreGroups(Zeros(n) + right) && Value(Zeros(n) + right) == Value(right)
    decreases |right|, n
  {
    assert IsGroup("0") && HexValue("0") == 0;
    hide IsGroup, HexValue;
    var all := Zeros(n) + right;
    if right != [] {
      var m := |right| - 1;
      LeadingZeros(n, right[..m]);
      assert all[..|all| - 1] == Zeros(n) + right[..m] && all[|all| - 1] == right[m];
    } else if n > 0 {
      LeadingZeros(n - 1, right);
      assert all[..n - 1] == Zeros(n - 1) + right && all[n - 1] == "0";
    }
  }

  lemma AppendZero(groups: seq<string>)
    requires AreGroups(groups)
    ensures AreGroups(groups + ["0"]) && Value(groups + ["0"]) == Value(groups) * 65536
  {
    assert IsGroup("0") && HexValue("0") == 0;
    hide IsGroup, HexValue;
    var all := groups + ["0"];
    assert all[..|all| - 1] == groups && all[|all| - 1] == "0";
  }

  lemma Times(v: nat, p: nat, q: nat)
    ensures v * p * q == v * (p * q)
  {
  }

  lemma ZerosPower(n: nat)
    requires n > 0
    ensures Pow2(16 * n) == Pow2(16 * (n - 1)) * 65536
  {
    SmallPowers();
    hide Pow2;
    Pow2Add(16 * (n - 1), 16);
    assert 16 * n == 16 * (n - 1) + 16;
  }

  lemma {:induction false} TrailingZeros(left: seq<string>, n: nat)
    requires AreGroups(left)
    ensures AreGroups(left + Zeros(n)) && Value(left + Zeros(n)) == Value(left) * Pow2(16 * n)
  {
    assert Pow2(0) == 1;
    hide AreGroups, Value, Pow2;
    if n == 0 {
      assert left + Zeros(0) == left;
    } else {
      ZerosPower(n);
      TrailingZeros(left, n - 1);
      AppendZero(left + Zeros(n - 1));
      assert left + Zeros(n) == left + Zeros(n - 1) + ["0"];
      Times(Value(left), Pow2(16 * (n - 1)), 65536);
    }
  }

  lemma PowersTo96()
    ensures Pow2(0) == 1 && Pow2(32) == 0x1_0000_0000 && Pow2(64) == 0x1_0000_0000_0000_0000
    ensures Pow2(80) == 0x1_0000_0000_0000_0000_0000 && Pow2(96) == 0x1_0000_0000_0000_0000_0000_0000
  {
    assert Pow2(0) == 1;
    SmallPowers();
    hide Pow2;
    Pow2Add(16, 16);
    Pow2Add(32, 32);
    Pow2Add(64, 16);
    Pow2Add(64, 32);
  }

  lemma BigPowers()
    ensures Pow2(0) == 1 && Pow2(32) == 0x1_0000_0000 && Pow2(64) == 0x1_0000_0000_0000_0000
    ensures Pow2(80) == 0x1_0000_0000_0000_0000_0000 && Pow2(96) == 0x1_0000_0000_0000_0000_0000_0000
    ensures Pow2(105) == 0x200_0000_0000_0000_0000_0000_0000 && Pow2(112) == 0x1_0000_0000_0000_0000_0000_0000_0000
    ensures Pow2(118) == 0x40_0000_0000_0000_0000_0000_0000_0000 && Pow2(120) == 0x100_0000_0000_0000_0000_0000_0000_0000
    ensures Pow2(121) == 0x200_0000_0000_0000_0000_0000_0000_0000 && Pow2(128) == 0x1_0000_0000_0000_0000_0000_0000_0000_0000
  {
    assert Pow2(1) == 2;
    SmallPowers();
    PowersTo96();
    hide Pow2;
    Pow2Add(96, 8);
    Pow2Add(104, 1);
    Pow2Add(96, 16);
    Pow2Add(96, 22);
    Pow2Add(96, 24);
    Pow2Add(120, 1);
    Pow2Add(112, 16);
  }

  /** A group of up to four digits, digit by digit. */
  lemma HexDigits(s: string)
    requires IsGroup(s)
    ensures |s| == 1 ==> HexValue(s) == DigitValue(s[0])
    ensures |s| == 2 ==> HexValue(s) == DigitValue(s[0]) * 16 + DigitValue(s[1])
    ensures |s| == 3 ==> HexValue(s) == (DigitValue(s[0]) * 16 + DigitValue(s[1])) * 16 + DigitValue(s[2])
    ensures |s| == 4 ==> HexValue(s) == ((DigitValue(s[0]) * 16 + DigitValue(s[1])) * 16 + DigitValue(s[2])) * 16 + DigitValue(s[3])
  {
    hide DigitValue;
    if |s| > 1 {
      HexDigits(s[..|s| - 1]);
    } else {
      assert s[..0] == "";
    }
  }

  lemma LowerLiteral(groups: seq<string>)
    requires AreGroups(groups)
    ensures AreWritten(groups) && LowerGroups(groups) == groups
  {
    forall i | 0 <= i < |groups| ensures LowerAll(groups[i]) == groups[i] {
      assert IsGroup(groups[i]);
      assert forall j :: 0 <= j < |groups[i]| ==> Lower(groups[i][j]) == groups[i][j];
    }
  }

  /** A network whose groups all stand on the left. */
  lemma LeftNetwork(n: Network)
    requires AreGroups(n.left) && |n.left| <= 8 && n.right == []
    ensures NetworkValue(n) == Value(n.left) * Pow2(16 * (8 - |n.left|))
  {
    LowerLiteral(n.left);
    TrailingZeros(n.left, 8 - |n.left|);
    var all := n.left + Zeros(8 - |n.left|);
    LowerLiteral(all);
    assert AreWritten([]);
    hide AreGroups, AreWritten, ParseIpv6, Value, Pow2, Colons, Zeros, LowerGroups;
    CompressedForm(n.left, n.right);
    assert all + [] == all;
  }

  /** A network whose groups all stand on the right. */
  lemma RightNetwork(n: Network)
    requires AreGroups(n.right) && |n.right| <= 8 && n.left == []
    ensures NetworkValue(n) == Value(n.right)
  {
    hide AreGroups, AreWritten, ParseIpv6, Value, Colons, Zeros, LowerGroups;
    var zeros := Zeros(8 - |n.right|);
    LowerLiteral(n.right);
    LeadingZeros(8 - |n.right|, n.right);
    LowerLiteral(zeros + n.right);
    NoneWritten();
    CompressedForm(n.left, n.right);
    assert n.left + zeros == zeros;
  }

  lemma NoneWritten()
    ensures AreWritten([])
  {
  }

  lemma Value0()
    ensures Value([]) == 0
  {
  }

  lemma Value1(a: string)
    requires IsGroup(a)
    ensures Value([a]) == HexValue(a)
  {
    assert [a][..0] == [];
  }

  lemma Value2(a: string, b: string)
    requires IsGroup(a) && IsGroup(b)
    ensures Value([a, b]) == HexValue(a) * 65536 + HexValue(b)
  {
    assert [a, b][..1] == [a];
    Value1(a);
  }

  lemma Value3(a: string, b: string, c: string)
    requires IsGroup(a) && IsGroup(b) && IsGroup(c)
    ensures Value([a, b, c]) == (HexValue(a) * 65536 + HexValue(b)) * 65536 + HexValue(c)
  {
    assert [a, b, c][..2] == [a, b];
    Value2(a, b);
  }

  lemma ShortLiterals()
    ensures IsGroup("1") && HexValue("1") == 0x1
    ensures IsGroup("0") && HexValue("0") == 0x0
    ensures IsGroup("64") && HexValue("64") == 0x64
    ensures IsGroup("100") && HexValue("100") == 0x100
    ensures IsGroup("db8") && HexValue("db8") == 0xDB8
  {
    hide HexValue;
    HexDigits("1");
    HexDigits("0");
    HexDigits("64");
    HexDigits("100");
    HexDigits("db8");
  }

  lemma LongLiterals()
    ensures IsGroup("ffff") && HexValue("ffff") == 0xFFFF
    ensures IsGroup("ff9b") && HexValue("ff9b") == 0xFF9B
    ensures IsGroup("2001") && HexValue("2001") == 0x2001
    ensures IsGroup("2002") && HexValue("2002") == 0x2002
    ensures IsGroup("fc00") && HexValue("fc00") == 0xFC00
    ensures IsGroup("fe80") && HexValue("fe80") == 0xFE80
    ensures IsGroup("fec0") && HexValue("fec0") == 0xFEC0
    ensures IsGroup("ff00") && HexValue("ff00") == 0xFF00
  {
    hide HexValue;
    HexDigits("ffff");
    HexDigits("ff9b");
    HexDigits("2001");
    HexDigits("2002");
    HexDigits("fc00");
    HexDigits("fe80");
    HexDigits("fec0");
    HexDigits("ff00");
  }

  lemma Left1(a: string, prefix: nat)
    requires IsGroup(a)
    ensures NetworkValue(Network([a], [], prefix)) == HexValue(a) * Pow2(112)
  {
    hide NetworkValue, Pow2, IsGroup;
    Value1(a);
    LeftNetwork(Network([a], [], prefix));
  }

  lemma Left2(a: string, b: string, prefix: nat)
    requires IsGroup(a) && IsGroup(b)
    ensures NetworkValue(Network([a, b], [], prefix)) == (HexValue(a) * 65536 + HexValue(b)) * Pow2(96)
  {
    hide NetworkValue, Pow2, IsGroup;
    Value2(a, b);
    LeftNetwork(Network([a, b], [], prefix));
  }

  lemma Left3(a: string, b: string, c: string, prefix: nat)
    requires IsGroup(a) && IsGroup(b) && IsGroup(c)
    ensures NetworkValue(Network([a, b, c], [], prefix)) == ((HexValue(a) * 65536 + HexValue(b)) * 65536 + HexValue(c)) * Pow2(80)
  {
    hide NetworkValue, Pow2, IsGroup;
    Value3(a, b, c);
    LeftNetwork(Network([a, b, c], [], prefix));
  }

  lemma RightNetworks()
    ensures NetworkValue(Network([], [], 96)) == 0
    ensures NetworkValue(Network([], ["1"], 128)) == 1
    ensures NetworkValue(Network([], ["ffff", "0", "0"], 96)) == 0xFFFF_0000_0000
  {
    ShortLiterals();
    LongLiterals();
    hide NetworkValue, IsGroup, HexValue;
    Value0();
    Value1("1");
    Value3("ffff", "0", "0");
    RightNetwork(Network([], [], 96));
    RightNetwork(Network([], ["1"], 128));
    RightNetwork(Network([], ["ffff", "0", "0"], 96));
  }

  /** Each blocked text denotes the first address of its range. */
  lemma FirstOfNetwork(i: nat)
    requires i < 13
    ensures NetworkValue(Blocked6()[i]) == First6(i)
  {
    RightNetworks();
    ShortLiterals();
    LongLiterals();
    BigPowers();
    hide NetworkValue, HexValue, Pow2, IsGroup;
    Left2("64", "ff9b", 96);
    Left3("64", "ff9b", "1", 48);
    Left1("100", 64);
    Left1("2001", 23);
    Left2("2001", "db8", 32);
    Left1("2002", 16);
    Left1("fc00", 7);
    Left1("fe80", 10);
    Left1("fec0", 10);
    Left1("ff00", 8);
  }

  lemma AlignedBlock(value: nat, first: nat, last: nat, q: nat, free: nat)
    requires free <= 128 && value < Pow2(128) && first < Pow2(128)
    requires first == q * Pow2(free) && last == first + Pow2(free) - 1
    ensures InCidr6(value, first, 128 - free) <==> first <= value <= last
  {
    hide Pow2;
    Remainder(first, Pow2(free), q, 0);
    ShiftIsInterval(value, first, 128 - free);
  }

  lemma LowRanges(i: nat, value: nat)
    requires 0 <= i < 4 && value < Pow2(128)
    ensures InCidr6(value, First6(i), Blocked6()[i].prefix) <==> First6(i) <= value <= Last6(i)
  {
    BigPowers();
    hide Pow2, InCidr6;
    if i == 0 {
      AlignedBlock(value, First6(0), Last6(0), 0x0, 32);
    } else if i == 1 {
      AlignedBlock(value, First6(1), Last6(1), 0x1, 0);
    } else if i == 2 {
      AlignedBlock(value, First6(2), Last6(2), 0xFFFF, 32);
    } else if i == 3 {
      AlignedBlock(value, First6(3), Last6(3), 0x64FF9B0000000000000000, 32);
    }
  }

  lemma MiddleRanges(i: nat, value: nat)
    requires 4 <= i < 8 && value < Pow2(128)
    ensures InCidr6(value, First6(i), Blocked6()[i].prefix) <==> First6(i) <= value <= Last6(i)
  {
    BigPowers();
    hide Pow2, InCidr6;
    if i == 4 {
      AlignedBlock(value, First6(4), Last6(4), 0x64FF9B0001, 80);
    } else if i == 5 {
      AlignedBlock(value, First6(5), Last6(5), 0x100000000000000, 64);
    } else if i == 6 {
      AlignedBlock(value, First6(6), Last6(6), 0x100080, 105);
    } else if i == 7 {
      AlignedBlock(value, First6(7), Last6(7), 0x20010DB8, 96);
    }
  }

  lemma HighRanges(i: nat, value: nat)
    requires 8 <= i < 13 && value < Pow2(128)
    ensures InCidr6(value, First6(i), Blocked6()[i].prefix) <==> First6(i) <= value <= Last6(i)
  {
    BigPowers();
    hide Pow2, InCidr6;
    if i == 8 {
      AlignedBlock(value, First6(8), Last6(8), 0x2002, 112);
    } else if i == 9 {
      AlignedBlock(value, First6(9), Last6(9), 0x7E, 121);
    } else if i == 10 {
      AlignedBlock(value, First6(10), Last6(10), 0x3FA, 118);
    } else if i == 11 {
      AlignedBlock(value, First6(11), Last6(11), 0x3FB, 118);
    } else if i == 12 {
      AlignedBlock(value, First6(12), Last6(12), 0xFF, 120);
    }
  }

  /** An IPv6 address is public exactly when it lies in none of the listed ranges. */
  lemma Public6IsComplement(value: nat)
    requires value < Pow2(128)
    ensures IsPublic6(value) <==> forall i :: 0 <= i < 13 ==> value < First6(i) || Last6(i) < value
  {
    hide Pow2, Blocked6, First6, Last6, InCidr6, NetworkValue;
    forall i | 0 <= i < 13
      ensures InCidr6(value, NetworkValue(Blocked6()[i]), Blocked6()[i].prefix) <==> First6(i) <= value <= Last6(i)
    {
      FirstOfNetwork(i);
      if i < 4 {
        LowRanges(i, value);
      } else if i < 8 {
        MiddleRanges(i, value);
      } else {
        HighRanges(i, value);
      }
    }
  }

  // ---------------------------------------------------------------- one test for both families

  /** `isIP`: a version 4 address is recognised as above; `isIp6` stands for the library's test of the other family. */
  function Family(isIp6: string -> bool, address: string): (f: nat)
    ensures f in {0, 4, 6}
  {
    if IsIp4(address) then 4 else if isIp6(address) then 6 else 0
  }

  function IsPublicAddress(isIp6: string -> bool, address: string): (r: Result<bool, AddressError>)
  {
    match Family(isIp6, address)
    case 4 => Success(IsPublic4(Ipv4Number(address)))
    case 6 => (match ParseIpv6(address) case Failure(e) => Failure(e) case Success(v) => Success(IsPublic6(v)))
    case _ => Success(false)
  }

  predicate IsOrdinary4(value: nat)
  {
    forall i :: 0 <= i < 15 ==> value < Ranges4()[i].0 || Ranges4()[i].1 < value
  }

  predicate IsOrdinary6(value: nat)
  {
    forall i :: 0 <= i < 13 ==> value < First6(i) || Last6(i) < value
  }

  /** A public address is an address whose value lies outside every special-purpose range of its family. */
  lemma PublicMeaning(isIp6: string -> bool, address: string)
    ensures IsPublicAddress(isIp6, address) == Success(true) <==>
      if IsIp4(address) then IsOrdinary4(Ipv4Number(address))
      else isIp6(address) && ParseIpv6(address).Success? && IsOrdinary6(ParseIpv6(address).value)
  {
    hide IsIp4, ParseIpv6, Ranges4, First6, Last6, IsPublic4, IsPublic6, Ipv4Number, Pow2;
    if IsIp4(address) {
      Public4IsComplement(Ipv4Number(address));
    } else if isIp6(address) && ParseIpv6(address).Success? {
      ParsedBound(address);
      Public6IsComplement(ParseIpv6(address).value);
    }
  }
}
