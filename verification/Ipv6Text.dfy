/** IPv6 addresses as text, in the forms of section 2.2 of RFC 4291. */
module Ipv6Text {
  import opened Prelude
  import opened Text
  import opened Cidr

  datatype AddressError = ZoneIdentifier | InvalidAddress

  // ---------------------------------------------------------------- characters and groups

  function Lower(c: char): (l: char)
  {
    if 'A' <= c <= 'Z' then c - 'A' + 'a' else c
  }

  function LowerAll(s: string): (l: string)
    ensures |l| == |s| && forall i :: 0 <= i < |s| ==> l[i] == Lower(s[i])
  {
    seq(|s|, i requires 0 <= i < |s| => Lower(s[i]))
  }

  predicate IsDigit(c: char)
  {
    '0' <= c <= '9'
  }

  predicate IsHex(c: char)
  {
    IsDigit(c) || 'a' <= c <= 'f'
  }

  function DigitValue(c: char): (d: nat)
    requires IsHex(c)
    ensures d < 16 && (IsDigit(c) ==> d < 10)
  {
    if IsDigit(c) then (c - '0') as int else (c - 'a') as int + 10
  }

  /** One to four lower-case hexadecimal digits. */
  predicate IsGroup(s: string)
  {
    1 <= |s| <= 4 && forall i :: 0 <= i < |s| ==> IsHex(s[i])
  }

  function HexValue(s: string): (v: nat)
    requires forall i :: 0 <= i < |s| ==> IsHex(s[i])
  {
    if s == "" then 0 else HexValue(s[..|s| - 1]) * 16 + DigitValue(s[|s| - 1])
  }

  lemma {:induction false} HexBound(s: string)
    requires forall i :: 0 <= i < |s| ==> IsHex(s[i])
    ensures HexValue(s) < Pow2(4 * |s|)
  {
    if s == "" {
      assert Pow2(0) == 1;
    } else {
      var n := |s| - 1;
      HexBound(s[..n]);
      assert Pow2(4) == 16 && HexValue(s) == HexValue(s[..n]) * 16 + DigitValue(s[n]);
      hide Pow2, HexValue, DigitValue;
      Pow2Add(4 * n, 4);
      assert 4 * |s| == 4 * n + 4;
    }
  }

  lemma GroupBound(s: string)
    requires IsGroup(s)
    ensures HexValue(s) < 65536
  {
    HexBound(s);
    SmallPowers();
    Pow2Monotone(4 * |s|, 16);
  }

  // ---------------------------------------------------------------- splitting

  /** `split` on one character. */
  function SplitChar(s: string, c: char): (parts: seq<string>)
    ensures |parts| >= 1
    ensures c !in s ==> parts == [s]
  {
    if s == "" then [""]
    else
      var rest := SplitChar(s[1..], c);
      assert s == [s[0]] + s[1..];
      if s[0] == c then [""] + rest else [[s[0]] + rest[0]] + rest[1..]
  }

  /** `split("::")`, leftmost matches first. */
  function SplitDouble(s: string): (parts: seq<string>)
    ensures |parts| >= 1
  {
    if |s| < 2 then [s]
    else if s[0] == ':' && s[1] == ':' then [""] + SplitDouble(s[2..])
    else
      var rest := SplitDouble(s[1..]);
      [[s[0]] + rest[0]] + rest[1..]
  }

  /** The part after the last colon. */
  function TailStart(s: string): (i: nat)
    ensures i <= |s|
    ensures i > 0 ==> s[i - 1] == ':'
    ensures forall j :: i <= j < |s| ==> s[j] != ':'
  {
    if s == "" then 0 else if s[|s| - 1] == ':' then |s| else TailStart(s[..|s| - 1])
  }

  // ---------------------------------------------------------------- the dotted quad

  predicate IsNumeral(s: string)
  {
    1 <= |s| <= 3 && forall i :: 0 <= i < |s| ==> IsDigit(s[i])
  }

  function Decimal(s: string): (v: nat)
    requires forall i :: 0 <= i < |s| ==> IsDigit(s[i])
  {
    if s == "" then 0 else Decimal(s[..|s| - 1]) * 10 + DigitValue(s[|s| - 1])
  }

  /** Four numerals of one to three digits. */
  predicate IsDotted(s: string)
  {
    var parts := SplitChar(s, '.');
    |parts| == 4 && forall i :: 0 <= i < 4 ==> IsNumeral(parts[i])
  }

  /** What `isIP` calls a version 4 address: octets without leading zeros. */
  predicate IsIp4(s: string)
  {
    && IsDotted(s)
    && forall i :: 0 <= i < 4 ==>
      var part := SplitChar(s, '.')[i]; Decimal(part) < 256 && (|part| > 1 ==> part[0] != '0')
  }

  function Ipv4Number(s: string): (v: nat)
    requires IsIp4(s)
    ensures v < 0x1_0000_0000
  {
    var p := SplitChar(s, '.');
    Quad(Decimal(p[0]), Decimal(p[1]), Decimal(p[2]), Decimal(p[3]))
  }

  function HexText(n: nat): (s: string)
    ensures |s| >= 1 && forall i :: 0 <= i < |s| ==> IsHex(s[i])
  {
    var digit := if n % 16 < 10 then '0' + (n % 16) as char else 'a' + (n % 16 - 10) as char;
    (if n < 16 then "" else HexText(n / 16)) + [digit]
  }

  // ---------------------------------------------------------------- parsing

  function Zeros(n: nat): (groups: seq<string>)
    ensures |groups| == n && forall i :: 0 <= i < n ==> groups[i] == "0"
  {
    seq(n, i => "0")
  }

  /** Eight groups, most significant first. */
  function Value(groups: seq<string>): (v: nat)
    requires forall i :: 0 <= i < |groups| ==> IsGroup(groups[i])
  {
    if groups == [] then 0
    else
      assert IsGroup(groups[|groups| - 1]);
      Value(groups[..|groups| - 1]) * 65536 + HexValue(groups[|groups| - 1])
  }

  /** The embedded dotted quad is rewritten as two groups. */
  function Normalize(s: string): (r: Result<string, AddressError>)
  {
    var i := TailStart(s);
    if !IsDotted(s[i..]) then Success(s)
    else if !IsIp4(s[i..]) then Failure(InvalidAddress)
    else
      var v := Ipv4Number(s[i..]);
      Success(s[..i] + HexText(v / 65536) + ":" + HexText(v % 65536))
  }

  function Groups(s: string): (r: Result<seq<string>, AddressError>)
    ensures r.Success? ==> |r.value| == 8 && forall i :: 0 <= i < 8 ==> IsGroup(r.value[i])
  {
    FromHalves(SplitDouble(s))
  }

  function FromHalves(halves: seq<string>): (r: Result<seq<string>, AddressError>)
    requires |halves| >= 1
    ensures r.Success? ==> |r.value| == 8 && forall i :: 0 <= i < 8 ==> IsGroup(r.value[i])
  {
    if |halves| > 2 then Failure(InvalidAddress)
    else
      var left := if halves[0] == "" then [] else SplitChar(halves[0], ':');
      var right := if |halves| == 2 && halves[1] != "" then SplitChar(halves[1], ':') else [];
      var missing := 8 - |left| - |right|;
      if missing < 0 || (|halves| == 1 && missing != 0) then Failure(InvalidAddress)
      else
        var groups := left + Zeros(missing) + right;
        if forall i :: 0 <= i < 8 ==> IsGroup(groups[i]) then Success(groups) else Failure(InvalidAddress)
  }

  /** `ipv6ToBigInt`. */
  function ParseIpv6(address: string): (r: Result<nat, AddressError>)
  {
    if '%' in address then Failure(ZoneIdentifier)
    else
      match Normalize(LowerAll(address))
      case Failure(e) => Failure(e)
      case Success(normalized) =>
        match Groups(normalized)
        case Failure(e) => Failure(e)
        case Success(groups) => Success(Value(groups))
  }

  /** The same letter, perhaps once large and once small. */
  predicate SameLetter(c: char, d: char)
  {
    c == d || ('A' <= c <= 'Z' && d == c - 'A' + 'a') || ('A' <= d <= 'Z' && c == d - 'A' + 'a')
  }

  /** The case of letters does not matter. */
  lemma CaseDoesNotMatter(s: string, t: string)
    requires |s| == |t| && forall i :: 0 <= i < |s| ==> SameLetter(s[i], t[i])
    ensures ParseIpv6(s) == ParseIpv6(t)
  {
    assert LowerAll(s) == LowerAll(t);
    assert '%' in s <==> '%' in t by {
      assert forall i :: 0 <= i < |s| ==> (s[i] == '%' <==> t[i] == '%');
    }
    hide Normalize, Groups;
  }

  // ---------------------------------------------------------------- bounds

  lemma {:induction false} ValueBound(groups: seq<string>)
    requires forall i :: 0 <= i < |groups| ==> IsGroup(groups[i])
    ensures Value(groups) < Pow2(16 * |groups|)
  {
    if groups == [] {
      assert Pow2(0) == 1;
    } else {
      var n := |groups| - 1;
      ValueBound(groups[..n]);
      GroupBound(groups[n]);
      SmallPowers();
      Pow2Add(16 * n, 16);
      hide Pow2, HexValue;
      var p, v := Pow2(16 * n), Value(groups[..n]);
      assert v + 1 <= p;
      assert v * 65536 + 65536 <= p * 65536;
      assert 16 * |groups| == 16 * n + 16;
    }
  }

  /** A parsed address is below 2^128. */
  lemma ParsedBound(address: string)
    requires ParseIpv6(address).Success?
    ensures ParseIpv6(address).value < Pow2(128)
  {
    hide Pow2, Value;
    var groups := Groups(Normalize(LowerAll(address)).value).value;
    ValueBound(groups);
    assert 16 * |groups| == 128;
  }

  // ---------------------------------------------------------------- the forms of section 2.2

  /** One to four hexadecimal digits in either case. */
  predicate IsWrittenGroup(s: string)
  {
    IsGroup(LowerAll(s))
  }

  ghost predicate AreWritten(groups: seq<string>)
  {
    forall i :: 0 <= i < |groups| ==> IsWrittenGroup(groups[i])
  }

  function LowerGroups(groups: seq<string>): (r: seq<string>)
    ensures |r| == |groups| && forall i :: 0 <= i < |r| ==> r[i] == LowerAll(groups[i])
  {
    seq(|groups|, i requires 0 <= i < |groups| => LowerAll(groups[i]))
  }

  function Colons(groups: seq<string>): (s: string)
  {
    Join(groups, ":")
  }

  lemma LowerAppend(a: string, b: string)
    ensures LowerAll(a + b) == LowerAll(a) + LowerAll(b)
  {
  }

  lemma {:induction false} LowerColons(groups: seq<string>)
    ensures LowerAll(Colons(groups)) == Colons(LowerGroups(groups))
  {
    if |groups| > 1 {
      LowerColons(groups[1..]);
      assert LowerGroups(groups)[1..] == LowerGroups(groups[1..]);
      LowerAppend(groups[0] + ":", Colons(groups[1..]));
      LowerAppend(groups[0], ":");
      assert LowerAll(":") == ":";
    }
  }

  /** No two adjacent colons, none at either end. */
  ghost predicate Clean(s: string)
  {
    && (forall i :: 0 <= i < |s| - 1 ==> s[i] != ':' || s[i + 1] != ':')
    && (s != "" ==> s[0] != ':' && s[|s| - 1] != ':')
  }

  ghost predicate AreGroups(groups: seq<string>)
  {
    forall i :: 0 <= i < |groups| ==> IsGroup(groups[i])
  }

  predicate HasOnly(s: string, dots: bool)
  {
    forall i :: 0 <= i < |s| ==> IsHex(s[i]) || s[i] == ':' || (dots && s[i] == '.')
  }

  lemma {:induction false} ColonsShape(groups: seq<string>)
    requires AreGroups(groups)
    ensures Clean(Colons(groups)) && HasOnly(Colons(groups), false)
    ensures Colons(groups) == "" <==> groups == []
  {
    if |groups| == 1 {
      assert IsGroup(groups[0]);
    } else if |groups| > 1 {
      assert IsGroup(groups[0]);
      ColonsShape(groups[1..]);
      CleanJoin(groups[0], Colons(groups[1..]));
      assert Colons(groups) == groups[0] + ":" + Colons(groups[1..]);
      hide Colons, Clean;
    }
  }

  lemma {:induction false} ColonsSplit(groups: seq<string>)
    requires AreGroups(groups) && groups != []
    ensures SplitChar(Colons(groups), ':') == groups
  {
    assert IsGroup(groups[0]);
    assert ':' !in groups[0];
    assert groups == [groups[0]] + groups[1..];
    if |groups| > 1 {
      ColonsSplit(groups[1..]);
      SplitAfter(groups[0], Colons(groups[1..]), ':');
    }
  }

  lemma CleanJoin(a: string, b: string)
    requires IsGroup(a) && b != "" && Clean(b)
    ensures Clean(a + ":" + b)
  {
    var s := a + ":" + b;
    assert forall i :: 0 <= i < |a| ==> s[i] == a[i] && s[i] != ':';
    assert forall i :: 0 <= i < |b| ==> s[|a| + 1 + i] == b[i];
    forall i | 0 <= i < |s| - 1 ensures s[i] != ':' || s[i + 1] != ':' {
      if i > |a| {
        assert s[i] == b[i - |a| - 1] && s[i + 1] == b[i - |a|];
      }
    }
    assert s[|s| - 1] == b[|b| - 1];
  }

  lemma {:induction false} SplitAfter(first: string, rest: string, c: char)
    requires c !in first
    ensures SplitChar(first + [c] + rest, c) == [first] + SplitChar(rest, c)
  {
    var s := first + [c] + rest;
    if first == "" {
      assert s[1..] == rest;
    } else {
      SplitAfter(first[1..], rest, c);
      assert s[1..] == first[1..] + [c] + rest;
      assert first == [first[0]] + first[1..];
    }
  }

  lemma {:induction false} SplitClean(s: string)
    requires forall i :: 0 <= i < |s| - 1 ==> s[i] != ':' || s[i + 1] != ':'
    ensures SplitDouble(s) == [s]
  {
    if |s| >= 2 {
      assert forall i :: 0 <= i < |s[1..]| ==> s[1..][i] == s[i + 1];
      SplitClean(s[1..]);
      assert s == [s[0]] + s[1..];
    }
  }

  lemma {:induction false} SplitAtDouble(left: string, right: string)
    requires Clean(left) && Clean(right)
    ensures SplitDouble(left + "::" + right) == [left, right]
    decreases |left|
  {
    var s := left + "::" + right;
    if left == "" {
      SplitClean(right);
      assert s[2..] == right;
    } else {
      var shorter := left[1..];
      assert s[0] != ':' && s[1..] == shorter + "::" + right;
      if shorter == "" {
        SplitAtDouble(shorter, right);
      } else if shorter[0] == ':' {
        SplitAfterColon(shorter, right);
      } else {
        assert forall i :: 0 <= i < |shorter| ==> shorter[i] == left[i + 1];
        assert shorter[|shorter| - 1] == left[|left| - 1];
        SplitAtDouble(shorter, right);
      }
      assert left == [left[0]] + shorter;
    }
  }

  /** The same when the left part starts with a single colon. */
  lemma {:induction false} SplitAfterColon(left: string, right: string)
    requires |left| >= 2 && left[0] == ':' && Clean(left[1..]) && Clean(right)
    ensures SplitDouble(left + "::" + right) == [left, right]
    decreases |left|
  {
    var s := left + "::" + right;
    assert s[1] == left[1] == left[1..][0];
    assert s[1..] == left[1..] + "::" + right;
    SplitAtDouble(left[1..], right);
    assert left == [left[0]] + left[1..];
  }

  lemma NotDotted(s: string)
    requires '.' !in s
    ensures Normalize(s) == Success(s)
  {
    assert '.' !in s[TailStart(s)..];
  }

  lemma GroupsOfFull(groups: seq<string>)
    requires AreGroups(groups) && |groups| == 8
    ensures Groups(Colons(groups)) == Success(groups)
  {
    ColonsShape(groups);
    ColonsSplit(groups);
    hide Colons, SplitChar;
    SplitClean(Colons(groups));
    assert groups + Zeros(0) + [] == groups;
  }

  lemma Expanded(left: seq<string>, right: seq<string>)
    requires AreGroups(left) && AreGroups(right) && |left| + |right| <= 8
    ensures AreGroups(left + Zeros(8 - |left| - |right|) + right)
  {
    assert IsGroup("0");
    hide IsGroup;
  }

  lemma GroupsOfCompressed(left: seq<string>, right: seq<string>)
    requires AreGroups(left) && AreGroups(right) && |left| + |right| <= 8
    ensures Groups(Colons(left) + "::" + Colons(right)) == Success(left + Zeros(8 - |left| - |right|) + right)
  {
    ColonsShape(left);
    ColonsShape(right);
    SplitAtDouble(Colons(left), Colons(right));
    if left != [] {
      ColonsSplit(left);
    }
    if right != [] {
      ColonsSplit(right);
    }
    hide Colons, SplitChar, SplitDouble, FromHalves, IsGroup, Clean, HasOnly;
    TwoHalves(Colons(left), Colons(right), left, right);
  }

  lemma TwoHalves(a: string, b: string, left: seq<string>, right: seq<string>)
    requires AreGroups(left) && AreGroups(right) && |left| + |right| <= 8
    requires if a == "" then left == [] else SplitChar(a, ':') == left
    requires if b == "" then right == [] else SplitChar(b, ':') == right
    ensures FromHalves([a, b]) == Success(left + Zeros(8 - |left| - |right|) + right)
  {
    Expanded(left, right);
    hide SplitChar, IsGroup;
  }

  lemma LowerWritten(groups: seq<string>)
    requires AreWritten(groups)
    ensures AreGroups(LowerGroups(groups))
  {
  }

  /** Text without a dotted quad: the groups decide. */
  lemma ParsePlain(s: string, lower: string, groups: seq<string>)
    requires LowerAll(s) == lower && HasOnly(lower, false) && Groups(lower) == Success(groups)
    ensures ParseIpv6(s) == Success(Value(groups))
  {
    assert forall i :: 0 <= i < |s| ==> s[i] != '%' by {
      assert forall i :: 0 <= i < |s| ==> lower[i] == Lower(s[i]);
    }
    NotDotted(lower);
    hide Normalize, Groups, Value, LowerAll;
  }

  function FullValue(groups: seq<string>): (v: nat)
    requires AreWritten(groups)
  {
    LowerWritten(groups);
    Value(LowerGroups(groups))
  }

  /** The full form: eight groups separated by colons. */
  lemma FullForm(groups: seq<string>)
    requires AreWritten(groups) && |groups| == 8
    ensures ParseIpv6(Colons(groups)) == Success(FullValue(groups))
  {
    var lower := LowerGroups(groups);
    LowerWritten(groups);
    LowerColons(groups);
    ColonsShape(lower);
    GroupsOfFull(lower);
    hide Colons, Groups, ParseIpv6, Value;
    ParsePlain(Colons(groups), Colons(lower), lower);
  }

  /** The compressed form: "::" stands for the missing groups of zeros, so it has the value of the full form. */
  lemma CompressedForm(left: seq<string>, right: seq<string>)
    requires AreWritten(left) && AreWritten(right) && |left| + |right| <= 8
    ensures AreWritten(left + Zeros(8 - |left| - |right|) + right)
    ensures ParseIpv6(Colons(left) + "::" + Colons(right)) == Success(FullValue(left + Zeros(8 - |left| - |right|) + right))
  {
    var l, r := LowerGroups(left), LowerGroups(right);
    LowerWritten(left);
    LowerWritten(right);
    LowerCompressed(left, right);
    GroupsOfCompressed(l, r);
    CompressedOnly(l, r);
    var zeros := Zeros(8 - |left| - |right|);
    WrittenZeros(left, zeros, right);
    LowerZeros(left, zeros, right);
    hide Colons, Groups, ParseIpv6, Value, LowerGroups, LowerAll, AreWritten, AreGroups, HasOnly, Zeros;
    ParsePlain(Colons(left) + "::" + Colons(right), Colons(l) + "::" + Colons(r), l + zeros + r);
  }

  lemma LowerCompressed(left: seq<string>, right: seq<string>)
    ensures LowerAll(Colons(left) + "::" + Colons(right)) == Colons(LowerGroups(left)) + "::" + Colons(LowerGroups(right))
  {
    LowerColons(left);
    LowerColons(right);
    hide Colons;
    LowerAppend(Colons(left) + "::", Colons(right));
    LowerAppend(Colons(left), "::");
    assert LowerAll("::") == "::";
  }

  lemma CompressedOnly(l: seq<string>, r: seq<string>)
    requires AreGroups(l) && AreGroups(r)
    ensures HasOnly(Colons(l) + "::" + Colons(r), false)
  {
    ColonsShape(l);
    ColonsShape(r);
  }

  lemma LowerZeros(left: seq<string>, zeros: seq<string>, right: seq<string>)
    requires forall i :: 0 <= i < |zeros| ==> zeros[i] == "0"
    ensures LowerGroups(left + zeros + right) == LowerGroups(left) + zeros + LowerGroups(right)
  {
    assert LowerAll("0") == "0";
    hide LowerAll;
  }

  lemma WrittenZeros(left: seq<string>, zeros: seq<string>, right: seq<string>)
    requires AreWritten(left) && AreWritten(right) && forall i :: 0 <= i < |zeros| ==> zeros[i] == "0"
    ensures AreWritten(left + zeros + right)
  {
    assert LowerAll("0") == "0" && IsWrittenGroup("0");
    hide IsWrittenGroup;
  }

  // ---------------------------------------------------------------- the embedded dotted quad

  lemma {:induction false} HexTextValue(n: nat, digits: nat)
    requires digits >= 1 && n < Pow2(4 * digits)
    ensures |HexText(n)| <= digits && HexValue(HexText(n)) == n
    decreases digits
  {
    var s := HexText(n);
    assert s[..|s| - 1] == if n < 16 then "" else HexText(n / 16);
    assert DigitValue(s[|s| - 1]) == n % 16;
    assert Pow2(4) == 16;
    if n >= 16 {
      hide Pow2;
      assert digits > 1;
      Pow2Add(4 * (digits - 1), 4);
      assert 4 * digits == 4 * (digits - 1) + 4;
      HexTextValue(n / 16, digits - 1);
    }
  }

  lemma HexTextGroup(n: nat)
    requires n < 65536
    ensures IsGroup(HexText(n)) && HexValue(HexText(n)) == n && LowerAll(HexText(n)) == HexText(n)
  {
    SmallPowers();
    hide Pow2, HexText, HexValue;
    HexTextValue(n, 4);
    var s := HexText(n);
    assert forall i :: 0 <= i < |s| ==> Lower(s[i]) == s[i];
  }

  lemma {:induction false} DigitsAndDots(s: string)
    requires forall i, j :: 0 <= i < |SplitChar(s, '.')| && 0 <= j < |SplitChar(s, '.')[i]| ==> IsDigit(SplitChar(s, '.')[i][j])
    ensures forall i :: 0 <= i < |s| ==> IsDigit(s[i]) || s[i] == '.'
  {
    if s != "" {
      var parts, rest := SplitChar(s, '.'), SplitChar(s[1..], '.');
      if s[0] == '.' {
        assert parts == [""] + rest;
        forall i, j | 0 <= i < |rest| && 0 <= j < |rest[i]| ensures IsDigit(rest[i][j]) {
          assert rest[i] == parts[i + 1];
        }
      } else {
        assert parts == [[s[0]] + rest[0]] + rest[1..];
        assert parts[0][0] == s[0];
        forall i, j | 0 <= i < |rest| && 0 <= j < |rest[i]| ensures IsDigit(rest[i][j]) {
          assert i > 0 ==> rest[i] == parts[i];
          assert i == 0 ==> rest[0][j] == parts[0][j + 1];
        }
      }
      DigitsAndDots(s[1..]);
      assert forall i :: 0 < i < |s| ==> s[i] == s[1..][i - 1];
    }
  }

  lemma QuadText(t: string)
    requires IsIp4(t)
    ensures LowerAll(t) == t && '%' !in t && ':' !in t
  {
    var parts := SplitChar(t, '.');
    assert forall i :: 0 <= i < 4 ==> IsNumeral(parts[i]);
    hide SplitChar;
    DigitsAndDots(t);
    assert forall i :: 0 <= i < |t| ==> Lower(t[i]) == t[i];
  }

  /** Where a tail can start: at the beginning or after a colon. */
  predicate OpensTail(prefix: string)
  {
    prefix == "" || prefix[|prefix| - 1] == ':'
  }

  lemma TailAt(prefix: string, t: string)
    requires OpensTail(prefix) && ':' !in t
    ensures TailStart(prefix + t) == |prefix|
  {
    var s, i := prefix + t, TailStart(prefix + t);
    assert forall j :: 0 <= j < |t| ==> s[|prefix| + j] == t[j];
    assert forall j :: |prefix| <= j < |s| ==> s[j] == t[j - |prefix|] && s[j] != ':';
    assert |prefix| > 0 ==> s[|prefix| - 1] == ':';
    hide TailStart;
  }

  /** The two groups a dotted quad stands for. */
  function QuadGroups(t: string): (groups: seq<string>)
    requires IsIp4(t)
  {
    [HexText(Ipv4Number(t) / 65536), HexText(Ipv4Number(t) % 65536)]
  }

  lemma TwoColons(a: string, b: string)
    ensures Colons([a, b]) == a + ":" + b
  {
    assert [a, b][1..] == [b] && Join([b], ":") == b;
  }

  lemma NormalizeQuad(prefix: string, t: string)
    requires OpensTail(prefix) && IsIp4(t)
    ensures Normalize(prefix + t) == Success(prefix + Colons(QuadGroups(t)))
  {
    QuadText(t);
    TailAt(prefix, t);
    assert (prefix + t)[|prefix|..] == t && (prefix + t)[..|prefix|] == prefix;
    hide IsIp4, TailStart, HexText;
    var g := QuadGroups(t);
    TwoColons(g[0], g[1]);
    assert prefix + g[0] + ":" + g[1] == prefix + (g[0] + ":" + g[1]);
  }

  lemma NormalizeHex(prefix: string, groups: seq<string>)
    requires |groups| == 2 && AreGroups(groups)
    ensures Normalize(prefix + Colons(groups)) == Success(prefix + Colons(groups))
  {
    var g := groups;
    assert IsGroup(g[0]) && IsGroup(g[1]);
    TwoColons(g[0], g[1]);
    assert g == [g[0], g[1]];
    var head := prefix + g[0] + ":";
    assert prefix + Colons(g) == head + g[1];
    assert ':' !in g[1] && '.' !in g[1];
    TailAt(head, g[1]);
    assert (head + g[1])[|head|..] == g[1];
    hide TailStart, IsGroup;
  }

  /** A dotted quad at the end is read exactly as the two groups it stands for. */
  lemma QuadIsTwoGroups(prefix: string, t: string)
    requires OpensTail(prefix) && IsIp4(t)
    ensures ParseIpv6(prefix + t) == ParseIpv6(prefix + Colons(QuadGroups(t)))
  {
    var g := QuadGroups(t);
    QuadAreGroups(t);
    QuadText(t);
    LowerAppend(prefix, t);
    LowerAppend(prefix, Colons(g));
    LowerColons(g);
    ColonsShape(g);
    OpensLower(prefix);
    assert '%' !in Colons(g);
    hide Normalize, LowerAll, Colons, QuadGroups, IsIp4, HasOnly, Clean, AreGroups, OpensTail, ParseIpv6;
    NormalizeQuad(LowerAll(prefix), t);
    NormalizeHex(LowerAll(prefix), g);
    SameNormal(prefix + t, prefix + Colons(g));
  }

  lemma QuadAreGroups(t: string)
    requires IsIp4(t)
    ensures |QuadGroups(t)| == 2 && AreGroups(QuadGroups(t)) && LowerGroups(QuadGroups(t)) == QuadGroups(t)
  {
    hide IsIp4, HexText, HexValue, Ipv4Number, IsGroup, LowerAll;
    HexTextGroup(Ipv4Number(t) / 65536);
    HexTextGroup(Ipv4Number(t) % 65536);
  }

  lemma OpensLower(prefix: string)
    requires OpensTail(prefix)
    ensures OpensTail(LowerAll(prefix))
  {
    assert prefix != "" ==> LowerAll(prefix)[|prefix| - 1] == Lower(prefix[|prefix| - 1]);
  }

  lemma SameNormal(a: string, b: string)
    requires '%' in a <==> '%' in b
    requires Normalize(LowerAll(a)) == Normalize(LowerAll(b))
    ensures ParseIpv6(a) == ParseIpv6(b)
  {
    hide Normalize, LowerAll;
  }

  lemma WrittenQuad(t: string)
    requires IsIp4(t)
    ensures AreWritten(QuadGroups(t)) && LowerGroups(QuadGroups(t)) == QuadGroups(t)
    ensures HexValue(QuadGroups(t)[0]) * 65536 + HexValue(QuadGroups(t)[1]) == Ipv4Number(t)
  {
    hide IsIp4, HexText, HexValue, Ipv4Number, IsGroup, LowerAll;
    var v := Ipv4Number(t);
    HexTextGroup(v / 65536);
    HexTextGroup(v % 65536);
    assert v / 65536 * 65536 + v % 65536 == v;
  }

  lemma ValueWithQuad(groups: seq<string>, t: string)
    requires AreWritten(groups) && IsIp4(t)
    ensures AreWritten(groups + QuadGroups(t)) && FullValue(groups + QuadGroups(t)) == FullValue(groups) * 0x1_0000_0000 + Ipv4Number(t)
  {
    var g := QuadGroups(t);
    WrittenQuad(t);
    LowerWritten(groups);
    hide IsIp4, QuadGroups, HexValue, IsWrittenGroup;
    var lower := LowerGroups(groups);
    var all := LowerGroups(groups + g);
    assert AreWritten(groups + g);
    LowerWritten(groups + g);
    assert all == lower + g;
    var n := |groups|;
    assert all[..n + 1][..n] == lower && all[..n] == lower && all[n] == g[0] && all[n + 1] == g[1];
    assert Value(all) == Value(all[..n + 1]) * 65536 + HexValue(g[1]);
    assert Value(all[..n + 1]) == Value(lower) * 65536 + HexValue(g[0]);
  }

  lemma ColonsAppend(left: seq<string>, right: seq<string>)
    requires left != [] && right != []
    ensures Colons(left + right) == Colons(left) + ":" + Colons(right)
  {
    JoinAppend(left, right, ":");
  }

  lemma {:induction false} JoinAppend(left: seq<string>, right: seq<string>, separator: string)
    requires left != [] && right != []
    ensures Join(left + right, separator) == Join(left, separator) + separator + Join(right, separator)
  {
    assert (left + right)[1..] == left[1..] + right;
    if |left| == 1 {
      assert left[1..] + right == right;
    } else {
      JoinAppend(left[1..], right, separator);
      var a, b, c := left[0] + separator, Join(left[1..], separator), separator + Join(right, separator);
      assert a + (b + c) == a + b + c;
      assert b + separator + Join(right, separator) == b + c;
    }
  }

  lemma OpensColon(a: string)
    ensures OpensTail(a + ":")
  {
  }

  lemma FullQuadText(groups: seq<string>, t: string)
    requires groups != [] && IsIp4(t)
    ensures |QuadGroups(t)| == 2 && ParseIpv6(Colons(groups) + ":" + t) == ParseIpv6(Colons(groups + QuadGroups(t)))
  {
    hide *;
    QuadAreGroups(t);
    OpensColon(Colons(groups));
    QuadIsTwoGroups(Colons(groups) + ":", t);
    ColonsAppend(groups, QuadGroups(t));
  }

  lemma FullQuadParsed(groups: seq<string>, t: string)
    requires AreWritten(groups) && |groups| == 6 && IsIp4(t)
    ensures AreWritten(groups + QuadGroups(t)) && ParseIpv6(Colons(groups) + ":" + t) == Success(FullValue(groups + QuadGroups(t)))
  {
    hide *;
    FullQuadText(groups, t);
    ValueWithQuad(groups, t);
    FullForm(groups + QuadGroups(t));
  }

  /** Six groups and a dotted quad: the value of the groups, then the 32 bits of the quad. */
  lemma FullWithQuad(groups: seq<string>, t: string)
    requires AreWritten(groups) && |groups| == 6 && IsIp4(t)
    ensures ParseIpv6(Colons(groups) + ":" + t) == Success(FullValue(groups) * 0x1_0000_0000 + Ipv4Number(t))
  {
    hide *;
    FullQuadParsed(groups, t);
    ValueWithQuad(groups, t);
  }

  /** The text after "::": groups, then the quad. */
  function TailText(right: seq<string>, t: string): (tail: string)
  {
    if right == [] then t else Colons(right) + ":" + t
  }

  lemma TailQuad(head: string, right: seq<string>, t: string)
    requires IsIp4(t)
    ensures ParseIpv6(head + "::" + TailText(right, t)) == ParseIpv6(head + "::" + Colons(right + QuadGroups(t)))
  {
    var g := QuadGroups(t);
    assert g != [];
    hide Colons, IsIp4, ParseIpv6, QuadGroups;
    if right == [] {
      assert right + g == g;
      assert OpensTail(head + "::");
      QuadIsTwoGroups(head + "::", t);
    } else {
      ColonsAppend(right, g);
      var middle := Colons(right);
      Reassociate(head, middle, t);
      Reassociate(head, middle, Colons(g));
      QuadIsTwoGroups(head + "::" + middle + ":", t);
    }
  }

  lemma Reassociate(head: string, middle: string, last: string)
    ensures head + "::" + (middle + ":" + last) == head + "::" + middle + ":" + last
    ensures OpensTail(head + "::" + middle + ":")
  {
  }

  /** A compressed address that ends in a dotted quad has the value of its full form. */
  lemma CompressedWithQuad(left: seq<string>, right: seq<string>, t: string)
    requires AreWritten(left) && AreWritten(right) && |left| + |right| <= 6 && IsIp4(t)
    ensures AreWritten(left + Zeros(6 - |left| - |right|) + right)
    ensures ParseIpv6(Colons(left) + "::" + TailText(right, t)) ==
            Success(FullValue(left + Zeros(6 - |left| - |right|) + right) * 0x1_0000_0000 + Ipv4Number(t))
  {
    hide *;
    var g, zeros := QuadGroups(t), Zeros(6 - |left| - |right|);
    CompressedQuadGroups(left, right, t);
    TailQuad(Colons(left), right, t);
    CompressedForm(left, right + g);
    ValueWithQuad(left + zeros + right, t);
  }

  lemma CompressedQuadGroups(left: seq<string>, right: seq<string>, t: string)
    requires AreWritten(left) && AreWritten(right) && |left| + |right| <= 6 && IsIp4(t)
    ensures var g, zeros := QuadGroups(t), Zeros(6 - |left| - |right|);
      && AreWritten(right + g) && |right + g| == |right| + 2 && AreWritten(left + zeros + right)
      && left + Zeros(8 - |left| - |right + g|) + (right + g) == left + zeros + right + g
  {
    hide *;
    var g, zeros := QuadGroups(t), Zeros(6 - |left| - |right|);
    QuadAreGroups(t);
    WrittenQuad(t);
    WrittenZeros(left, zeros, right);
    WrittenAppend(right, g);
    AppendAssociative(left + zeros, right, g);
  }

  lemma WrittenAppend(left: seq<string>, right: seq<string>)
    requires AreWritten(left) && AreWritten(right)
    ensures AreWritten(left + right)
  {
  }
}
