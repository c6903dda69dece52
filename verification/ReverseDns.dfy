/** Reverse-DNS zone names of networks: section 3.5 of RFC 1035 for in-addr.arpa and
    section 2.5 of RFC 3596 for ip6.arpa. An address is read as a list of units, most
    significant first: 4 octets for IPv4, 32 nibbles for IPv6. A zone name lists the
    labels of the first few units backwards. */
module ReverseDns {
  import opened ServerTypes

  const BUFFER_SIZE := 73

  function Units(a: Address): nat {
    if a.V4? then 4 else 32
  }

  function UnitBits(a: Address): nat {
    if a.V4? then 8 else 4
  }

  /** The i-th octet (IPv4) or nibble (IPv6). */
  function Unit(a: Address, i: nat): (u: nat)
    requires i < Units(a)
    ensures u < 256 && (a.V6? ==> u < 16)
  {
    if a.V4? then a.v4[i]
    else if i % 2 == 0 then a.v6[i / 2] / 16
    else a.v6[i / 2] % 16
  }

  /** How many units of the address a network's zone name spells out. */
  function SpelledUnits(n: Network): (k: nat)
    ensures k <= Units(n.address)
  {
    var k := n.prefix / UnitBits(n.address);
    if k > Units(n.address) then Units(n.address) else k
  }

  function Digit(d: nat): char
    requires d < 16
  {
    if d < 10 then ('0' as int + d) as char else ('a' as int + d - 10) as char
  }

  /** The text printf gives for "%d" on an octet. */
  function Decimal(b: nat): string
    requires b < 256
  {
    if b < 10 then [Digit(b)]
    else if b < 100 then [Digit(b / 10), Digit(b % 10)]
    else [Digit(b / 100), Digit(b / 10 % 10), Digit(b % 10)]
  }

  function UnitLabel(a: Address, i: nat): string
    requires i < Units(a)
  {
    if a.V4? then Decimal(Unit(a, i)) else [Digit(Unit(a, i))]
  }

  function Apex(a: Address): string {
    if a.V4? then "in-addr.arpa" else "ip6.arpa"
  }

  function Name(a: Address, k: nat): string
    requires k <= Units(a)
  {
    if k == 0 then Apex(a) else UnitLabel(a, k - 1) + "." + Name(a, k - 1)
  }

  function ZoneName(n: Network): string {
    Name(n.address, SpelledUnits(n))
  }

  function FullName(a: Address): string {
    Name(a, Units(a))
  }

  // ----- Names as lists of labels

  function Labels(s: string): (r: seq<string>)
    ensures |r| > 0
  {
    if s == "" then [""]
    else
      var r := Labels(s[1..]);
      if s[0] == '.' then [""] + r else [[s[0]] + r[0]] + r[1..]
  }

  function Join(labels: seq<string>): string
    requires |labels| > 0
  {
    if |labels| == 1 then labels[0] else labels[0] + "." + Join(labels[1..])
  }

  /** `zone` is `name` itself or follows one of its dots. */
  ghost predicate LabelSuffix(zone: string, name: string) {
    name == zone || exists i :: 0 <= i < |name| && name[i] == '.' && name[i + 1..] == zone
  }

  lemma {:induction false} JoinLabels(s: string)
    ensures Join(Labels(s)) == s
  {
    if s != "" {
      JoinLabels(s[1..]);
      var r := Labels(s[1..]);
      assert s == [s[0]] + s[1..];
      if s[0] == '.' {
        assert ([""] + r)[1..] == r;
      } else {
        var q := [[s[0]] + r[0]] + r[1..];
        assert q[1..] == r[1..];
      }
    }
  }

  lemma {:induction false} LabelsInjective(s: string, t: string)
    requires Labels(s) == Labels(t)
    ensures s == t
  {
    JoinLabels(s);
    JoinLabels(t);
  }

  /** Cutting a name after a dot drops whole labels. */
  lemma {:induction false} CutAtDot(s: string, i: nat)
    requires i < |s| && s[i] == '.'
    ensures exists m :: 0 < m <= |Labels(s)| - 1 && Labels(s[i + 1..]) == Labels(s)[m..]
  {
    var r := Labels(s[1..]);
    if i == 0 {
      assert Labels(s)[1..] == r;
    } else {
      CutAtDot(s[1..], i - 1);
      assert s[1..][i..] == s[i + 1..];
      var m :| 0 < m <= |r| - 1 && Labels(s[i + 1..]) == r[m..];
      if s[0] == '.' {
        assert Labels(s)[m + 1..] == r[m..];
      } else {
        assert Labels(s)[m..] == r[m..];
      }
    }
  }

  /** Dropping labels is cutting after a dot. */
  lemma {:induction false} DotForCut(s: string, m: nat)
    requires 0 < m < |Labels(s)|
    ensures exists i :: 0 <= i < |s| && s[i] == '.' && Labels(s[i + 1..]) == Labels(s)[m..]
  {
    var r := Labels(s[1..]);
    if s[0] == '.' && m == 1 {
      assert Labels(s)[1..] == r;
      assert s[0 + 1..] == s[1..];
    } else {
      var k := if s[0] == '.' then m - 1 else m;
      assert Labels(s)[m..] == r[k..];
      DotForCut(s[1..], k);
      var i :| 0 <= i < |s[1..]| && s[1..][i] == '.' && Labels(s[1..][i + 1..]) == r[k..];
      assert s[1..][i + 1..] == s[i + 2..];
      assert s[i + 1] == '.' && Labels(s[(i + 1) + 1..]) == Labels(s)[m..];
    }
  }

  /** A label-aligned suffix of the text is a suffix of the label list. */
  lemma {:induction false} LabelSuffixIsListSuffix(zone: string, name: string)
    ensures LabelSuffix(zone, name) <==>
      |Labels(zone)| <= |Labels(name)| &&
      Labels(name)[|Labels(name)| - |Labels(zone)|..] == Labels(zone)
  {
    var z, n := Labels(zone), Labels(name);
    if LabelSuffix(zone, name) && name != zone {
      var i :| 0 <= i < |name| && name[i] == '.' && name[i + 1..] == zone;
      CutAtDot(name, i);
    }
    if |z| <= |n| && n[|n| - |z|..] == z {
      var m := |n| - |z|;
      if m == 0 {
        LabelsInjective(name, zone);
      } else {
        DotForCut(name, m);
        var i :| 0 <= i < |name| && name[i] == '.' && Labels(name[i + 1..]) == n[m..];
        LabelsInjective(name[i + 1..], zone);
      }
    }
  }

  // ----- The labels of a zone name

  function NameLabels(a: Address, k: nat): (r: seq<string>)
    requires k <= Units(a)
    ensures |r| == k + 2
  {
    if k == 0 then [if a.V4? then "in-addr" else "ip6", "arpa"]
    else [UnitLabel(a, k - 1)] + NameLabels(a, k - 1)
  }

  lemma {:induction false} LabelsAfterPlainLabel(part: string, rest: string)
    requires '.' !in part
    ensures Labels(part + "." + rest) == [part] + Labels(rest)
  {
    var s := part + "." + rest;
    if part == "" {
      assert s[1..] == rest;
    } else {
      LabelsAfterPlainLabel(part[1..], rest);
      assert s[1..] == part[1..] + "." + rest;
      assert part == [part[0]] + part[1..];
    }
  }

  lemma {:induction false} LabelsOfPlainText(part: string)
    requires '.' !in part
    ensures Labels(part) == [part]
  {
    if part != "" {
      LabelsOfPlainText(part[1..]);
      assert part == [part[0]] + part[1..];
    }
  }

  lemma UnitLabelPlain(a: Address, i: nat)
    requires i < Units(a)
    ensures '.' !in UnitLabel(a, i) && 1 <= |UnitLabel(a, i)| <= 3
    ensures '\0' !in UnitLabel(a, i)
    ensures a.V6? ==> |UnitLabel(a, i)| == 1
  {
  }

  lemma {:induction false} ApexLabels(a: Address)
    ensures Labels(Apex(a)) == NameLabels(a, 0)
  {
    var first := if a.V4? then "in-addr" else "ip6";
    LabelsAfterPlainLabel(first, "arpa");
    LabelsOfPlainText("arpa");
    assert Apex(a) == first + "." + "arpa";
  }

  lemma {:induction false} LabelsOfName(a: Address, k: nat)
    requires k <= Units(a)
    ensures Labels(Name(a, k)) == NameLabels(a, k)
  {
    if k == 0 {
      ApexLabels(a);
    } else {
      UnitLabelPlain(a, k - 1);
      LabelsAfterPlainLabel(UnitLabel(a, k - 1), Name(a, k - 1));
      LabelsOfName(a, k - 1);
    }
  }

  lemma {:induction false} NameLabelsAt(a: Address, k: nat, i: nat)
    requires k <= Units(a) && i < k
    ensures NameLabels(a, k)[k - 1 - i] == UnitLabel(a, i)
  {
    if i < k - 1 {
      NameLabelsAt(a, k - 1, i);
    }
  }

  lemma {:induction false} NameLabelsSuffix(a: Address, k: nat, j: nat)
    requires k <= j <= Units(a)
    ensures NameLabels(a, j)[j - k..] == NameLabels(a, k)
    decreases j
  {
    if k < j {
      NameLabelsSuffix(a, k, j - 1);
      assert NameLabels(a, j)[j - k..] == NameLabels(a, j - 1)[j - 1 - k..];
    }
  }

  function DigitValue(c: char): int {
    c as int - '0' as int
  }

  /** Reads a decimal text of one to three digits. */
  function DecimalValue(s: string): int
    requires 1 <= |s| <= 3
  {
    if |s| == 1 then DigitValue(s[0])
    else if |s| == 2 then 10 * DigitValue(s[0]) + DigitValue(s[1])
    else 100 * DigitValue(s[0]) + 10 * DigitValue(s[1]) + DigitValue(s[2])
  }

  lemma DecimalRoundTrip(x: nat)
    requires x < 256
    ensures DecimalValue(Decimal(x)) == x
    ensures Decimal(x)[0] == '0' ==> x == 0 && |Decimal(x)| == 1
  {
    assert x / 10 == 10 * (x / 100) + x / 10 % 10;
  }

  /** Reads a hexadecimal digit. */
  function HexValue(c: char): int {
    if c <= '9' then DigitValue(c) else c as int - 'a' as int + 10
  }

  lemma HexRoundTrip(d: nat)
    requires d < 16
    ensures HexValue(Digit(d)) == d && ('0' <= Digit(d) <= '9' || 'a' <= Digit(d) <= 'f')
  {
  }

  lemma UnitLabelInjective(a: Address, b: Address, i: nat)
    requires a.V4? == b.V4? && i < Units(a)
    requires UnitLabel(a, i) == UnitLabel(b, i)
    ensures Unit(a, i) == Unit(b, i)
  {
    if a.V4? {
      DecimalRoundTrip(Unit(a, i));
      DecimalRoundTrip(Unit(b, i));
    } else {
      assert UnitLabel(a, i)[0] == UnitLabel(b, i)[0];
    }
  }

  /** What a zone name spells, read back: octets of an IPv4 network in decimal, nibbles of an
      IPv6 network in hexadecimal, the last one the prefix covers first. */
  lemma ZoneNameSpells(n: Network)
    ensures n.address.V4? ==>
      SpellsOctets(Labels(ZoneName(n)), n.address.v4, if n.prefix > 32 then 4 else n.prefix / 8)
    ensures n.address.V6? ==>
      SpellsNibbles(Labels(ZoneName(n)), n.address.v6, if n.prefix > 128 then 32 else n.prefix / 4)
  {
    LabelsOfName(n.address, SpelledUnits(n));
    LabelsSpell(n.address, SpelledUnits(n));
    SpelledUnitsAre(n);
  }

  lemma SpelledUnitsAre(n: Network)
    ensures n.address.V4? ==> SpelledUnits(n) == if n.prefix > 32 then 4 else n.prefix / 8
    ensures n.address.V6? ==> SpelledUnits(n) == if n.prefix > 128 then 32 else n.prefix / 4
  {
  }

  ghost predicate SpellsOctets(labels: seq<string>, v4: Octets4, k: nat) {
    && k <= 4 && |labels| == k + 2 && labels[k] == "in-addr" && labels[k + 1] == "arpa"
    && forall i :: 0 <= i < k ==> SpellsOctet(labels[k - 1 - i], v4[i])
  }

  ghost predicate SpellsNibbles(labels: seq<string>, v6: Octets16, k: nat) {
    && k <= 32 && |labels| == k + 2 && labels[k] == "ip6" && labels[k + 1] == "arpa"
    && forall i :: 0 <= i < k ==> SpellsNibble(labels[k - 1 - i], v6[i / 2], i % 2 == 0)
  }

  lemma {:induction false} LastLabels(a: Address, k: nat)
    requires k <= Units(a)
    ensures NameLabels(a, k)[k] == (if a.V4? then "in-addr" else "ip6") && NameLabels(a, k)[k + 1] == "arpa"
  {
    if k > 0 {
      LastLabels(a, k - 1);
    }
  }

  lemma {:induction false} LabelsSpell(a: Address, k: nat)
    requires k <= Units(a)
    ensures a.V4? ==> SpellsOctets(NameLabels(a, k), a.v4, k)
    ensures a.V6? ==> SpellsNibbles(NameLabels(a, k), a.v6, k)
  {
    LastLabels(a, k);
    forall i | 0 <= i < k
      ensures a.V4? ==> SpellsOctet(NameLabels(a, k)[k - 1 - i], a.v4[i])
      ensures a.V6? ==> SpellsNibble(NameLabels(a, k)[k - 1 - i], a.v6[i / 2], i % 2 == 0)
    {
      NameLabelsAt(a, k, i);
      UnitLabelSpells(a, i);
    }
  }

  /** A decimal number without leading zeros. */
  ghost predicate SpellsOctet(part: string, b: Byte) {
    1 <= |part| <= 3 && DecimalValue(part) == b && (part[0] == '0' ==> |part| == 1)
  }

  ghost predicate SpellsNibble(part: string, b: Byte, high: bool) {
    |part| == 1 && HexValue(part[0]) == if high then b / 16 else b % 16
  }

  lemma UnitLabelSpells(a: Address, i: nat)
    requires i < Units(a)
    ensures a.V4? ==> SpellsOctet(UnitLabel(a, i), a.v4[i])
    ensures a.V6? ==> SpellsNibble(UnitLabel(a, i), a.v6[i / 2], i % 2 == 0)
  {
    if a.V4? {
      DecimalRoundTrip(a.v4[i]);
    } else {
      HexRoundTrip(Unit(a, i));
    }
  }

  // ----- Containment

  /** x and a belong to one family and agree on their first k units. */
  ghost predicate SharesUnits(x: Address, a: Address, k: nat)
    requires k <= Units(a)
  {
    x.V4? == a.V4? && forall i :: 0 <= i < k ==> Unit(x, i) == Unit(a, i)
  }

  lemma {:induction false} SameUnitsSameLabels(x: Address, a: Address, k: nat)
    requires k <= Units(a) && SharesUnits(x, a, k)
    ensures NameLabels(x, k) == NameLabels(a, k)
  {
    if k > 0 {
      SameUnitsSameLabels(x, a, k - 1);
    }
  }

  lemma {:induction false} SameLabelsSameUnits(x: Address, a: Address, k: nat)
    requires k <= Units(a) && k <= Units(x)
    requires NameLabels(x, k) == NameLabels(a, k)
    ensures SharesUnits(x, a, k)
  {
    NameLabelsSuffix(x, 0, k);
    NameLabelsSuffix(a, 0, k);
    assert NameLabels(x, 0)[0] == NameLabels(a, 0)[0];
    assert "in-addr"[1] != "ip6"[1];
    forall i | 0 <= i < k
      ensures Unit(x, i) == Unit(a, i)
    {
      NameLabelsAt(x, k, i);
      NameLabelsAt(a, k, i);
      UnitLabelInjective(x, a, i);
    }
  }

  /** An address lies under a network's reverse zone exactly when it is of the network's
      family and shares the whole units that the prefix covers. */
  lemma ZoneSuffixIsContainment(x: Address, n: Network)
    ensures LabelSuffix(ZoneName(n), FullName(x)) <==> SharesUnits(x, n.address, SpelledUnits(n))
  {
    var a, k := n.address, SpelledUnits(n);
    LabelsOfName(a, k);
    LabelsOfName(x, Units(x));
    LabelSuffixIsListSuffix(ZoneName(n), FullName(x));
    if k <= Units(x) {
      NameLabelsSuffix(x, k, Units(x));
      if SharesUnits(x, a, k) {
        SameUnitsSameLabels(x, a, k);
      }
      if NameLabels(x, k) == NameLabels(a, k) {
        SameLabelsSameUnits(x, a, k);
      }
    }
  }

  /** Two networks have the same zone name exactly when family, rounded prefix and the
      bits under it agree. */
  lemma ZoneNamesEqualIff(m: Network, n: Network)
    ensures ZoneName(m) == ZoneName(n) <==>
      SpelledUnits(m) == SpelledUnits(n) && SharesUnits(m.address, n.address, SpelledUnits(n))
  {
    LabelsOfName(m.address, SpelledUnits(m));
    LabelsOfName(n.address, SpelledUnits(n));
    if ZoneName(m) == ZoneName(n) {
      SameLabelsSameUnits(m.address, n.address, SpelledUnits(n));
    }
    if SpelledUnits(m) == SpelledUnits(n) && SharesUnits(m.address, n.address, SpelledUnits(n)) {
      SameUnitsSameLabels(m.address, n.address, SpelledUnits(n));
      LabelsInjective(ZoneName(m), ZoneName(n));
    }
  }

  lemma {:induction false} NameLength(a: Address, k: nat)
    requires k <= Units(a)
    ensures |Name(a, k)| <= (if a.V4? then 12 + 4 * k else 8 + 2 * k)
    ensures a.V6? ==> |Name(a, k)| == 8 + 2 * k
    ensures '\0' !in Name(a, k)
  {
    if k > 0 {
      NameLength(a, k - 1);
      UnitLabelPlain(a, k - 1);
    }
  }

  // ----- Bits, and what rounding the prefix to whole units costs

  function Width(a: Address): nat {
    Units(a) * UnitBits(a)
  }

  function PowerOfTwo(k: nat): (p: nat)
    ensures p > 0
  {
    if k == 0 then 1 else 2 * PowerOfTwo(k - 1)
  }

  /** Bit j of a unit that is w bits wide, the most significant first. */
  function UnitBit(u: nat, w: nat, j: nat): nat
    requires j < w
  {
    u / PowerOfTwo(w - 1 - j) % 2
  }

  function Octets(a: Address): seq<Byte> {
    if a.V4? then a.v4 else a.v6
  }

  /** Bit i of an address in network order: of octet i / 8, the most significant first. */
  function Bit(a: Address, i: nat): nat
    requires i < Width(a)
  {
    ByteBit(Octets(a)[i / 8], i % 8)
  }

  lemma HighNibbleBits(b: Byte)
    ensures b / 128 % 2 == b / 16 / 8 % 2 && b / 64 % 2 == b / 16 / 4 % 2
    ensures b / 32 % 2 == b / 16 / 2 % 2 && b / 16 % 2 == b / 16 / 1 % 2
  {
  }

  lemma LowNibbleBits(b: Byte)
    ensures b / 8 % 2 == b % 16 / 8 % 2 && b / 4 % 2 == b % 16 / 4 % 2
    ensures b / 2 % 2 == b % 16 / 2 % 2 && b / 1 % 2 == b % 16 / 1 % 2
  {
    var q, r := b / 16, b % 16;
    assert b == 16 * q + r;
    assert b / 8 == 2 * q + r / 8;
    assert b / 4 == 4 * q + r / 4;
    assert b / 2 == 8 * q + r / 2;
  }

  function ByteBit(b: Byte, j: nat): nat
    requires j < 8
  {
    b / PowerOfTwo(7 - j) % 2
  }

  lemma NibbleBit(b: Byte, j: nat)
    requires j < 8
    ensures ByteBit(b, j) == UnitBit(if j < 4 then b / 16 else b % 16, 4, j % 4)
  {
    Powers();
    HighNibbleBits(b);
    LowNibbleBits(b);
    if j == 0 {
    } else if j == 1 {
    } else if j == 2 {
    } else if j == 3 {
    } else if j == 4 {
    } else if j == 5 {
    } else if j == 6 {
    } else {
    }
  }

  /** The units hold the bits of the octets, in order. */
  lemma BitIsUnitBit(a: Address, i: nat)
    requires i < Width(a)
    ensures i / UnitBits(a) < Units(a)
    ensures Bit(a, i) == UnitBit(Unit(a, i / UnitBits(a)), UnitBits(a), i % UnitBits(a))
  {
    if a.V6? {
      NibbleBit(a.v6[i / 8], i % 8);
      assert i / 4 / 2 == i / 8 && i % 4 == i % 8 % 4;
      assert i / 4 % 2 == 0 <==> i % 8 < 4;
    }
  }

  /** CIDR containment: x agrees with the network on its first `prefix` bits. */
  ghost predicate InNetwork(x: Address, n: Network)
    requires n.prefix <= Width(n.address)
  {
    x.V4? == n.address.V4? && forall i :: 0 <= i < n.prefix ==> Bit(x, i) == Bit(n.address, i)
  }

  lemma HalvingThenDividing(u: nat, k: nat)
    requires k > 0
    ensures u / (2 * k) == u / 2 / k
  {
    var q := u / 2 / k;
    var r := u / 2 % k;
    assert u / 2 == q * k + r;
    assert u == (2 * k) * q + (2 * r + u % 2);
    DivisionUnique(u, 2 * k, q, 2 * r + u % 2);
  }

  lemma DivisionUnique(u: nat, d: nat, q: nat, r: nat)
    requires r < d && u == d * q + r
    ensures u / d == q
  {
    var e := u / d - q;
    assert u == d * (u / d) + u % d;
    assert d * e == r - u % d;
    ScaledAtLeast(d, e);
  }

  lemma ScaledAtLeast(d: nat, e: int)
    ensures e >= 1 ==> d * e >= d
    ensures e <= -1 ==> d * e <= d * -1
  {
  }

  /** A unit is determined by its bits. */
  lemma {:induction false} BitsDetermineUnit(u: nat, v: nat, w: nat)
    requires u < PowerOfTwo(w) && v < PowerOfTwo(w)
    requires forall j :: 0 <= j < w ==> UnitBit(u, w, j) == UnitBit(v, w, j)
    ensures u == v
  {
    if w > 0 {
      var x, y, z := u / 2, v / 2, w - 1;
      forall j | 0 <= j < z
        ensures UnitBit(x, z, j) == UnitBit(y, z, j)
      {
        HalvingThenDividing(u, PowerOfTwo(z - 1 - j));
        HalvingThenDividing(v, PowerOfTwo(z - 1 - j));
        assert UnitBit(u, w, j) == UnitBit(v, w, j);
      }
      BitsDetermineUnit(x, y, z);
      assert UnitBit(u, w, z) == UnitBit(v, w, z);
      assert PowerOfTwo(0) == 1;
    }
  }

  lemma BitOfUnit(a: Address, m: nat, j: nat)
    requires m < Units(a) && j < UnitBits(a)
    ensures UnitBits(a) * m + j < Width(a)
    ensures Bit(a, UnitBits(a) * m + j) == UnitBit(Unit(a, m), UnitBits(a), j)
  {
    BitIsUnitBit(a, UnitBits(a) * m + j);
    if a.V4? {
      assert (8 * m + j) / 8 == m && (8 * m + j) % 8 == j;
    } else {
      assert (4 * m + j) / 4 == m && (4 * m + j) % 4 == j;
    }
  }

  lemma UnitOfBit(a: Address, i: nat, k: nat)
    requires k <= Units(a) && i < k * UnitBits(a)
    ensures i / UnitBits(a) < k && i < Width(a)
  {
    if a.V4? {
      assert i / 8 < k;
    } else {
      assert i / 4 < k;
    }
  }

  lemma UnitsGiveBits(x: Address, a: Address, k: nat, i: nat)
    requires k <= Units(a) && SharesUnits(x, a, k) && i < k * UnitBits(a)
    ensures i < Width(a) && Bit(x, i) == Bit(a, i)
  {
    UnitOfBit(a, i, k);
    BitIsUnitBit(x, i);
    BitIsUnitBit(a, i);
    assert Unit(x, i / UnitBits(a)) == Unit(a, i / UnitBits(a));
  }

  lemma BitsGiveUnit(x: Address, a: Address, m: nat)
    requires x.V4? == a.V4? && m < Units(a)
    requires forall i :: UnitBits(a) * m <= i < UnitBits(a) * m + UnitBits(a) && i < Width(a) ==> Bit(x, i) == Bit(a, i)
    ensures Unit(x, m) == Unit(a, m)
  {
    var w, u, v := UnitBits(a), Unit(x, m), Unit(a, m);
    forall j | 0 <= j < w
      ensures UnitBit(u, w, j) == UnitBit(v, w, j)
    {
      BitOfUnit(x, m, j);
      BitOfUnit(a, m, j);
    }
    Powers();
    BitsDetermineUnit(u, v, w);
  }

  /** Whole units agree exactly when all the bits they hold do. */
  lemma UnitsAgreeIffBitsAgree(x: Address, a: Address, k: nat)
    requires x.V4? == a.V4? && k <= Units(a)
    ensures k * UnitBits(a) <= Width(a)
    ensures SharesUnits(x, a, k) <==>
      forall i :: 0 <= i < k * UnitBits(a) ==> Bit(x, i) == Bit(a, i)
  {
    var n := k * UnitBits(a);
    if SharesUnits(x, a, k) {
      forall i | 0 <= i < n
        ensures Bit(x, i) == Bit(a, i)
      {
        UnitsGiveBits(x, a, k, i);
      }
    }
    if forall i :: 0 <= i < n ==> Bit(x, i) == Bit(a, i) {
      forall m | 0 <= m < k
        ensures Unit(x, m) == Unit(a, m)
      {
        assert UnitBits(a) * m + UnitBits(a) <= n;
        BitsGiveUnit(x, a, m);
      }
    }
  }

  lemma Powers()
    ensures PowerOfTwo(1) == 2 && PowerOfTwo(2) == 4 && PowerOfTwo(3) == 8 && PowerOfTwo(4) == 16
    ensures PowerOfTwo(5) == 32 && PowerOfTwo(6) == 64 && PowerOfTwo(7) == 128 && PowerOfTwo(8) == 256
  {
  }

  /** The byte b with its high or its low nibble set to u. */
  function WithNibble(b: Byte, high: bool, u: Byte): (r: Byte)
    requires u < 16
    ensures r / 16 == (if high then u else b / 16) && r % 16 == (if high then b % 16 else u)
  {
    if high then 16 * u + b % 16 else b / 16 * 16 + u
  }

  /** The address a with unit i set to u. */
  function WithUnit(a: Address, i: nat, u: Byte): (r: Address)
    requires i < Units(a) && (a.V6? ==> u < 16)
    ensures r.V4? == a.V4?
    ensures forall j :: 0 <= j < Units(a) ==> Unit(r, j) == if j == i then u else Unit(a, j)
  {
    if a.V4? then V4(a.v4[i := u])
    else V6(a.v6[i / 2 := WithNibble(a.v6[i / 2], i % 2 == 0, u)])
  }

  lemma OnesAndZeros(w: nat, j: nat)
    requires (w == 4 || w == 8) && j < w
    ensures UnitBit(0, w, j) == 0
    ensures UnitBit(if w == 4 then 15 else 255, w, j) == 1
  {
    Powers();
    var k := w - 1 - j;
    if k == 0 {
    } else if k == 1 {
    } else if k == 2 {
    } else if k == 3 {
    } else if k == 4 {
    } else if k == 5 {
    } else if k == 6 {
    } else {
    }
  }

  /** A unit that differs from u in bit j. */
  function OtherUnit(u: nat, w: nat, j: nat): (r: Byte)
    requires (w == 4 || w == 8) && j < w
    ensures w == 4 ==> r < 16
  {
    if UnitBit(u, w, j) == 1 then 0 else if w == 4 then 15 else 255
  }

  lemma OtherUnitDiffers(u: nat, w: nat, j: nat)
    requires (w == 4 || w == 8) && j < w
    ensures UnitBit(OtherUnit(u, w, j), w, j) != UnitBit(u, w, j)
  {
    OnesAndZeros(w, j);
  }

  lemma DifferingUnitDiffersInBit(x: Address, a: Address, m: nat, j: nat)
    requires x.V4? == a.V4? && m < Units(a) && j < UnitBits(a)
    requires UnitBit(Unit(x, m), UnitBits(a), j) != UnitBit(Unit(a, m), UnitBits(a), j)
    ensures UnitBits(a) * m + j < Width(a) && Bit(x, UnitBits(a) * m + j) != Bit(a, UnitBits(a) * m + j)
  {
    BitOfUnit(x, m, j);
    BitOfUnit(a, m, j);
  }

  /** The last bit of a prefix that ends inside a unit lies in the first unit not spelled. */
  lemma LastBitIsUnspelled(n: Network)
    requires n.prefix <= Width(n.address) && n.prefix % UnitBits(n.address) != 0
    ensures SpelledUnits(n) < Units(n.address)
    ensures 0 <= n.prefix - 1 - UnitBits(n.address) * SpelledUnits(n) < UnitBits(n.address)
  {
    SpelledBits(n);
    if n.address.V4? {
      assert SpelledUnits(n) == n.prefix / 8;
    } else {
      assert SpelledUnits(n) == n.prefix / 4;
    }
  }

  /** An address the zone covers although its network does not, for a prefix that ends
      inside a unit. */
  lemma CoveredOutsider(n: Network) returns (x: Address)
    requires n.prefix <= Width(n.address) && n.prefix % UnitBits(n.address) != 0
    ensures SharesUnits(x, n.address, SpelledUnits(n)) && !InNetwork(x, n)
  {
    var a, w, k := n.address, UnitBits(n.address), SpelledUnits(n);
    LastBitIsUnspelled(n);
    var j := n.prefix - 1 - w * k;
    OtherUnitDiffers(Unit(a, k), w, j);
    x := WithUnit(a, k, OtherUnit(Unit(a, k), w, j));
    DifferingUnitDiffersInBit(x, a, k, j);
  }

  lemma AlignedContainment(x: Address, n: Network)
    requires n.prefix <= Width(n.address)
    ensures InNetwork(x, n) ==> LabelSuffix(ZoneName(n), FullName(x))
    ensures n.prefix % UnitBits(n.address) == 0 && LabelSuffix(ZoneName(n), FullName(x)) ==>
      InNetwork(x, n)
  {
    ZoneSuffixIsContainment(x, n);
    SpelledBits(n);
    if x.V4? == n.address.V4? {
      UnitsAgreeIffBitsAgree(x, n.address, SpelledUnits(n));
    }
  }

  lemma SpelledBits(n: Network)
    requires n.prefix <= Width(n.address)
    ensures SpelledUnits(n) * UnitBits(n.address) <= n.prefix
    ensures n.prefix % UnitBits(n.address) == 0 ==> SpelledUnits(n) * UnitBits(n.address) == n.prefix
  {
    if n.address.V4? {
      assert SpelledUnits(n) == n.prefix / 8;
    } else {
      assert SpelledUnits(n) == n.prefix / 4;
    }
  }

  /** The zone holds exactly the addresses of the network if and only if the prefix ends
      on an octet (IPv4) or nibble (IPv6) boundary; otherwise it is too wide. */
  lemma ZoneIsNetworkIffAligned(n: Network)
    requires n.prefix <= Width(n.address)
    ensures forall x :: InNetwork(x, n) ==> LabelSuffix(ZoneName(n), FullName(x))
    ensures n.prefix % UnitBits(n.address) == 0 <==>
      forall x :: LabelSuffix(ZoneName(n), FullName(x)) ==> InNetwork(x, n)
  {
    forall x
      ensures InNetwork(x, n) ==> LabelSuffix(ZoneName(n), FullName(x))
      ensures n.prefix % UnitBits(n.address) == 0 && LabelSuffix(ZoneName(n), FullName(x)) ==>
        InNetwork(x, n)
    {
      AlignedContainment(x, n);
    }
    if n.prefix % UnitBits(n.address) != 0 {
      var x := CoveredOutsider(n);
      ZoneSuffixIsContainment(x, n);
    }
  }

  // ----- The C code: descending loops that append to a 73-byte buffer

  /** The buffer holds the NUL-terminated text t. */
  ghost predicate Holds(buffer: array<char>, t: string)
    reads buffer
  {
    && |t| < buffer.Length
    && buffer[..|t|] == t
    && buffer[|t|] == '\0'
    && '\0' !in t
  }

  method StrCat(buffer: array<char>, s: string, ghost before: string)
    requires Holds(buffer, before) && '\0' !in s
    requires |before| + |s| < buffer.Length
    modifies buffer
    ensures Holds(buffer, before + s)
  {
    var end := 0;
    while buffer[end] != '\0'
      invariant 0 <= end <= |before|
      decreases |before| - end
    {
      end := end + 1;
    }
    assert end == |before|;
    for i := 0 to |s|
      invariant buffer[..end + i] == before + s[..i]
    {
      buffer[end + i] := s[i];
    }
    buffer[end + |s|] := '\0';
    assert s[..|s|] == s;
  }

  lemma AppendUnit(a: Address, i: nat, done: string, name: string)
    requires i < Units(a) && done + Name(a, i + 1) == name
    ensures (done + (UnitLabel(a, i) + ".")) + Name(a, i) == name
    ensures |UnitLabel(a, i)| <= 3 && '\0' !in UnitLabel(a, i)
    ensures a.V6? ==> |UnitLabel(a, i)| == 1
  {
    UnitLabelPlain(a, i);
    assert (done + (UnitLabel(a, i) + ".")) + Name(a, i) == done + (UnitLabel(a, i) + "." + Name(a, i));
  }

  method ReverseDnsIpv4(a: Address, prefix: Byte, result: array<char>)
    requires a.V4? && result.Length == BUFFER_SIZE
    modifies result
    ensures Holds(result, ZoneName(Network(a, prefix)))
  {
    var octets := prefix / 8;
    if octets > 4 {
      octets := 4;
    }
    result[0] := '\0';
    ghost var done, name := "", Name(a, octets);
    for i := octets downto 0
      invariant Holds(result, done) && |done| <= 4 * (octets - i)
      invariant done + Name(a, i) == name
    {
      AppendUnit(a, i, done, name);
      StrCat(result, Decimal(a.v4[i]) + ".", done);
      done := done + (UnitLabel(a, i) + ".");
    }
    StrCat(result, "in-addr.arpa", done);
  }

  method NibbleLabel(a: Address, i: nat) returns (part: string)
    requires a.V6? && i < 32
    ensures part == UnitLabel(a, i)
  {
    var byteIndex, val := i / 2, 0;
    if i % 2 == 0 {
      val := a.v6[byteIndex] / 16;
    } else {
      val := a.v6[byteIndex] % 16;
    }
    part := [Digit(val)];
  }

  method ReverseDnsIpv6(a: Address, prefix: Byte, result: array<char>)
    requires a.V6? && result.Length == BUFFER_SIZE
    modifies result
    ensures Holds(result, ZoneName(Network(a, prefix)))
  {
    var nibbles := prefix / 4;
    if nibbles > 32 {
      nibbles := 32;
    }
    result[0] := '\0';
    ghost var done, name := "", Name(a, nibbles);
    for i := nibbles downto 0
      invariant Holds(result, done) && |done| == 2 * (nibbles - i)
      invariant done + Name(a, i) == name
    {
      var part := NibbleLabel(a, i);
      AppendUnit(a, i, done, name);
      StrCat(result, part + ".", done);
      done := done + (part + ".");
    }
    StrCat(result, "ip6.arpa", done);
  }

  /** Writes the zone name into the caller's 73-byte buffer; the name and its NUL fit. */
  method ToReverseDns(n: Network, result: array<char>)
    requires result.Length == BUFFER_SIZE
    modifies result
    ensures Holds(result, ZoneName(n))
  {
    if n.address.V4? {
      ReverseDnsIpv4(n.address, n.prefix, result);
    } else {
      ReverseDnsIpv6(n.address, n.prefix, result);
    }
  }

  /** 73 bytes are enough for every name, and needed for a full IPv6 one. */
  lemma BufferIsTight(n: Network)
    ensures |ZoneName(n)| + 1 <= BUFFER_SIZE
    ensures n.address.V6? && n.prefix >= 128 ==> |ZoneName(n)| + 1 == BUFFER_SIZE
  {
    NameLength(n.address, SpelledUnits(n));
  }
}
