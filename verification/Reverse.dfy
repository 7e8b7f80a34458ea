/** Reverse lookup names of addresses (util/domains.go; section 3.5 of RFC 1035, section 2.5 of RFC 3596). */
module Reverse {
  import opened Text

  type Byte = b: int | 0 <= b < 256

  type Address = a: seq<Byte> | |a| == 16 witness [0, 0, 0, 0, 0, 0, 0, 0, 0, 0, 0, 0, 0, 0, 0, 0]

  const MAPPED: seq<Byte> := [0, 0, 0, 0, 0, 0, 0, 0, 0, 0, 255, 255]

  /** ip.To4() != nil: a 4-byte address, or a 16-byte one with the IPv4 prefix. */
  predicate IsV4(ip: seq<Byte>) {
    |ip| == 4 || (|ip| == 16 && ip[..12] == MAPPED)
  }

  // ---- digits ----

  function Digit(n: int): (r: char)
    requires 0 <= n < 16
    ensures r != '.'
  {
    if n < 10 then (48 + n) as char else (87 + n) as char
  }

  function DigitValue(c: char): (r: int) {
    if '0' <= c <= '9' then c as int - 48 else if 'a' <= c <= 'f' then c as int - 87 else 0
  }

  function Itoa(n: nat): (r: string)
    ensures r != "" && '.' !in r
  {
    if n < 10 then [Digit(n)] else Itoa(n / 10) + [Digit(n % 10)]
  }

  function Atoi(s: string): (r: int) {
    if s == "" then 0 else 10 * Atoi(s[..|s| - 1]) + DigitValue(s[|s| - 1])
  }

  lemma {:induction false} AtoiItoa(n: nat)
    ensures Atoi(Itoa(n)) == n
  {
    if n < 10 {
      assert Itoa(n)[..0] == "";
    } else {
      AtoiItoa(n / 10);
      assert (Itoa(n / 10) + [Digit(n % 10)])[..|Itoa(n / 10)|] == Itoa(n / 10);
    }
  }

  function Hex(bytes: seq<Byte>): (r: string)
    ensures |r| == 2 * |bytes| && '.' !in r
  {
    if bytes == [] then "" else [Digit(bytes[0] / 16), Digit(bytes[0] % 16)] + Hex(bytes[1..])
  }

  function Unhex(s: string): (r: seq<int>) {
    if |s| < 2 then [] else [16 * DigitValue(s[0]) + DigitValue(s[1])] + Unhex(s[2..])
  }

  lemma {:induction false} UnhexHex(bytes: seq<Byte>)
    ensures Unhex(Hex(bytes)) == bytes
    decreases |bytes|
  {
    if bytes != [] {
      assert Hex(bytes)[2..] == Hex(bytes[1..]);
      UnhexHex(bytes[1..]);
    }
  }

  // ---- labels, last first ----

  function Nibbles(hex: string, k: nat): (r: seq<string>)
    requires k <= |hex|
    ensures |r| == k
  {
    if k == 0 then [] else [[hex[k - 1]]] + Nibbles(hex, k - 1)
  }

  function Decimals(bytes: seq<Byte>, floor: nat, k: nat): (r: seq<string>)
    requires floor <= k <= |bytes|
    ensures |r| == k - floor
    decreases k
  {
    if k == floor then [] else [Itoa(bytes[k - 1])] + Decimals(bytes, floor, k - 1)
  }

  function Labels(ip: seq<Byte>): (r: seq<string>) {
    if IsV4(ip) then Decimals(ip, |ip| - 4, |ip|) else Nibbles(Hex(ip), 2 * |ip|)
  }

  function Zone(ip: seq<Byte>): (r: seq<string>)
    ensures |r| == 3
  {
    if IsV4(ip) then ["in-addr", "arpa", ""] else ["ip6", "arpa", ""]
  }

  /** The reverse lookup name: the labels, most specific first, under the zone of the address family. */
  function ReverseName(ip: seq<Byte>): (r: string) {
    Join(Labels(ip), '.') + "." + Join(Zone(ip), '.')
  }

  lemma ZoneText(ip: seq<Byte>)
    ensures "." + Join(Zone(ip), '.') == if IsV4(ip) then ".in-addr.arpa." else ".ip6.arpa."
  {
    JoinOfThree(if IsV4(ip) then "in-addr" else "ip6", "arpa", "", '.');
  }

  method WriteNibbles(chars: string) returns (sb: string)
    ensures sb == Join(Nibbles(chars, |chars|), '.')
  {
    sb := "";
    var idx := |chars|;
    while idx > 0
      invariant 0 <= idx <= |chars|
      invariant sb + Join(Nibbles(chars, idx), '.') == Join(Nibbles(chars, |chars|), '.')
    {
      assert Nibbles(chars, idx)[1..] == Nibbles(chars, idx - 1);
      idx := idx - 1;
      sb := sb + [chars[idx]];
      if idx > 0 {
        sb := sb + ".";
      }
    }
  }

  method WriteDecimals(bytes: seq<Byte>, floor: nat) returns (sb: string)
    requires floor <= |bytes|
    ensures sb == Join(Decimals(bytes, floor, |bytes|), '.')
  {
    sb := "";
    var idx := |bytes|;
    while idx > floor
      invariant floor <= idx <= |bytes|
      invariant sb + Join(Decimals(bytes, floor, idx), '.') == Join(Decimals(bytes, floor, |bytes|), '.')
    {
      assert Decimals(bytes, floor, idx)[1..] == Decimals(bytes, floor, idx - 1);
      idx := idx - 1;
      sb := sb + Itoa(bytes[idx]);
      if idx > floor {
        sb := sb + ".";
      }
    }
  }

  method ReverseLookupDomain(ip: Option<seq<Byte>>) returns (r: string)
    ensures r == if ip.None? then "" else ReverseName(ip.value)
  {
    if ip.None? {
      return "";
    }
    var bytes := ip.value;
    var sb: string;
    var suffix := ".in-addr.arpa.";
    if !IsV4(bytes) {
      suffix := ".ip6.arpa.";
      sb := WriteNibbles(Hex(bytes));
    } else {
      sb := WriteDecimals(bytes, |bytes| - 4);
    }
    ZoneText(bytes);
    return sb + suffix;
  }

  // ---- decoding ----

  /** The characters of one-letter labels, last label first. */
  function Letters(labels: seq<string>): (r: string) {
    if labels == [] then "" else Letters(labels[1..]) + if labels[0] == "" then "" else [labels[0][0]]
  }

  function Numbers(labels: seq<string>): (r: seq<int>) {
    if labels == [] then [] else Numbers(labels[1..]) + [Atoi(labels[0])]
  }

  /** Reads a reverse lookup name back. */
  function Decode(name: string): (r: Option<seq<int>>) {
    var labels := Split(name, '.');
    var n := |labels| - 3;
    if n == 4 && labels[n..] == ["in-addr", "arpa", ""] then Some(MAPPED + Numbers(labels[..n]))
    else if n == 32 && labels[n..] == ["ip6", "arpa", ""] then Some(Unhex(Letters(labels[..n])))
    else None
  }

  lemma {:induction false} NibblesRead(hex: string, k: nat)
    requires k <= |hex| && '.' !in hex
    ensures Letters(Nibbles(hex, k)) == hex[..k] && FreeOf(Nibbles(hex, k), '.')
    decreases k
  {
    if k > 0 {
      NibblesRead(hex, k - 1);
      assert Nibbles(hex, k)[1..] == Nibbles(hex, k - 1);
      assert hex[..k] == hex[..k - 1] + [hex[k - 1]];
    }
  }

  lemma {:induction false} DecimalsRead(bytes: seq<Byte>, floor: nat, k: nat)
    requires floor <= k <= |bytes|
    ensures Numbers(Decimals(bytes, floor, k)) == bytes[floor..k]
    decreases k
  {
    if k > floor {
      DecimalsRead(bytes, floor, k - 1);
      AtoiItoa(bytes[k - 1]);
      assert Decimals(bytes, floor, k)[1..] == Decimals(bytes, floor, k - 1);
      assert bytes[floor..k] == bytes[floor..k - 1] + [bytes[k - 1]];
    }
  }

  lemma {:induction false} DecimalsAreLabels(bytes: seq<Byte>, floor: nat, k: nat)
    requires floor <= k <= |bytes|
    ensures FreeOf(Decimals(bytes, floor, k), '.')
    decreases k
  {
    if k > floor { DecimalsAreLabels(bytes, floor, k - 1); }
  }

  lemma SplitReverseName(ip: Address)
    ensures Split(ReverseName(ip), '.') == Labels(ip) + Zone(ip)
  {
    if IsV4(ip) { DecimalsAreLabels(ip, 12, 16); } else { NibblesRead(Hex(ip), 32); }
    JoinConcat(Labels(ip), Zone(ip), '.');
    assert FreeOf(Labels(ip) + Zone(ip), '.');
    SplitJoin(Labels(ip) + Zone(ip), '.');
  }

  lemma V4Decodes(ip: Address)
    requires IsV4(ip)
    ensures MAPPED + Numbers(Labels(ip)) == ip
  {
    DecimalsRead(ip, 12, 16);
    assert ip == ip[..12] + ip[12..16];
  }

  lemma V6Decodes(ip: Address)
    requires !IsV4(ip)
    ensures Unhex(Letters(Labels(ip))) == ip
  {
    NibblesRead(Hex(ip), 32);
    assert Hex(ip)[..32] == Hex(ip);
    UnhexHex(ip);
  }

  /** A reverse lookup name gives the address back. */
  lemma ReverseNameDecodes(ip: Address)
    ensures Decode(ReverseName(ip)) == Some(ip)
  {
    SplitReverseName(ip);
    var labels, n := Labels(ip) + Zone(ip), |Labels(ip)|;
    assert labels[..n] == Labels(ip) && labels[n..] == Zone(ip);
    if IsV4(ip) {
      V4Decodes(ip);
    } else {
      V6Decodes(ip);
      assert Zone(ip)[0] != "in-addr";
    }
  }

  lemma ReverseNameInjective(a: Address, b: Address)
    ensures ReverseName(a) == ReverseName(b) ==> a == b
  {
    ReverseNameDecodes(a);
    ReverseNameDecodes(b);
  }

  // ---- the text of the names ----

  const DIGITS := "0123456789abcdef"

  lemma DigitText(n: int)
    requires 0 <= n < 16
    ensures Digit(n) == DIGITS[n]
  {
    assert DIGITS[n] as int == if n < 10 then 48 + n else 87 + n;
  }

  /** A byte is written in decimal without leading zeros. */
  lemma ByteText(b: Byte)
    ensures Itoa(b) == if b < 10 then [DIGITS[b]]
                       else if b < 100 then [DIGITS[b / 10], DIGITS[b % 10]]
                       else [DIGITS[b / 100], DIGITS[b / 10 % 10], DIGITS[b % 10]]
  {
    DigitText(b % 10);
    DigitText(b / 10 % 10);
    DigitText(b / 100);
    if b >= 10 { assert Itoa(b) == Itoa(b / 10) + [Digit(b % 10)]; }
    if b >= 100 { assert Itoa(b / 10) == Itoa(b / 10 / 10) + [Digit(b / 10 % 10)] && b / 10 / 10 == b / 100; }
  }

  lemma {:induction false} DecimalsAt(bytes: seq<Byte>, floor: nat, k: nat, i: nat)
    requires floor <= k <= |bytes| && i < k - floor
    ensures Decimals(bytes, floor, k)[i] == Itoa(bytes[k - 1 - i])
    decreases k
  {
    if i > 0 { DecimalsAt(bytes, floor, k - 1, i - 1); }
  }

  lemma V4Labels(ip: seq<Byte>)
    requires IsV4(ip)
    ensures var n := |ip|; Labels(ip) == [Itoa(ip[n - 1]), Itoa(ip[n - 2]), Itoa(ip[n - 3]), Itoa(ip[n - 4])]
  {
    var n := |ip|;
    forall i: nat | i < 4 ensures Labels(ip)[i] == Itoa(ip[n - 1 - i]) { DecimalsAt(ip, n - 4, n, i); }
  }

  lemma JoinOfFour(a: string, b: string, c: string, d: string)
    ensures Join([a, b, c, d], '.') == a + "." + b + "." + c + "." + d
  {
    assert [a, b, c, d][1..] == [b, c, d];
    JoinOfThree(b, c, d, '.');
    assert a + "." + (b + "." + c + "." + d) == a + "." + b + "." + c + "." + d;
  }

  /** The name of an IPv4 address: its last four bytes in decimal, the last one first. */
  lemma V4NameText(ip: seq<Byte>)
    requires IsV4(ip)
    ensures var n := |ip|;
            ReverseName(ip) == Itoa(ip[n - 1]) + "." + Itoa(ip[n - 2]) + "." + Itoa(ip[n - 3]) + "." + Itoa(ip[n - 4]) + ".in-addr.arpa."
  {
    var n := |ip|;
    V4Labels(ip);
    ZoneText(ip);
    JoinOfFour(Itoa(ip[n - 1]), Itoa(ip[n - 2]), Itoa(ip[n - 3]), Itoa(ip[n - 4]));
  }

  lemma {:induction false} HexAt(bytes: seq<Byte>, k: nat)
    requires k < |bytes|
    ensures Hex(bytes)[2 * k] == Digit(bytes[k] / 16) && Hex(bytes)[2 * k + 1] == Digit(bytes[k] % 16)
    decreases |bytes|
  {
    if k > 0 { HexAt(bytes[1..], k - 1); }
  }

  lemma {:induction false} NibblesAt(hex: string, k: nat, i: nat)
    requires i < k <= |hex|
    ensures Nibbles(hex, k)[i] == [hex[k - 1 - i]]
    decreases k
  {
    if i > 0 { NibblesAt(hex, k - 1, i - 1); }
  }

  lemma V6Labels(ip: Address, k: nat)
    requires !IsV4(ip) && k < 16
    ensures |Labels(ip)| == 32
    ensures Labels(ip)[2 * k] == [Digit(ip[15 - k] % 16)] && Labels(ip)[2 * k + 1] == [Digit(ip[15 - k] / 16)]
  {
    NibblesAt(Hex(ip), 32, 2 * k);
    NibblesAt(Hex(ip), 32, 2 * k + 1);
    HexAt(ip, 15 - k);
  }

  /** The labels of the name of an IPv6 address: from the last byte to the first, its low half and then its
      high half as one hexadecimal digit each, below ip6.arpa. */
  lemma V6NameLabels(ip: Address, k: nat)
    requires !IsV4(ip) && k < 16
    ensures var labels := Split(ReverseName(ip), '.');
            && |labels| == 35 && labels[32..] == ["ip6", "arpa", ""]
            && labels[2 * k] == [DIGITS[ip[15 - k] % 16]] && labels[2 * k + 1] == [DIGITS[ip[15 - k] / 16]]
  {
    SplitReverseName(ip);
    V6Labels(ip, k);
    DigitText(ip[15 - k] % 16);
    DigitText(ip[15 - k] / 16);
  }
}
