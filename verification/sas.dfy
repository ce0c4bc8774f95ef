/** Short authentication strings: the media layer's decimal code and the
    telephone layer's grouped code, both derived from a SHA-256 digest. The
    hash itself is an oracle; these functions start from its output. */
module Sas {
  import opened Basics

  /** A SHA-256 digest. */
  type Digest = b: Bytes | |b| == 32 witness seq(32, _ => 0)

  function Pow10(k: nat): (p: nat)
    ensures p >= 1
  {
    if k == 0 then 1 else 10 * Pow10(k - 1)
  }

  /** The unsigned integer that a big-endian byte string stands for. */
  function BigEndianValue(bs: Bytes): nat {
    if bs == [] then 0 else BigEndianValue(bs[..|bs| - 1]) * 256 + bs[|bs| - 1]
  }

  predicate IsDigit(c: char) {
    '0' <= c <= '9'
  }

  predicate AllDigits(s: string) {
    forall i :: 0 <= i < |s| ==> IsDigit(s[i])
  }

  function DigitChar(d: nat): (c: char)
    requires d < 10
    ensures IsDigit(c) && (c as int) - ('0' as int) == d
  {
    ((('0' as int) + d) as char)
  }

  /** The value of a decimal digit string; the empty string counts as 0. */
  function DigitsValue(s: string): nat
    requires AllDigits(s)
  {
    if s == [] then 0
    else DigitsValue(s[..|s| - 1]) * 10 + ((s[|s| - 1] as int) - ('0' as int))
  }

  /** The shortest decimal spelling of `n` ("0" for zero). */
  function Decimal(n: nat): (s: string)
    ensures |s| >= 1 && AllDigits(s)
    decreases n
  {
    if n < 10 then [DigitChar(n)] else Decimal(n / 10) + [DigitChar(n % 10)]
  }

  /** Decimal spelling round-trips through its value. */
  lemma {:induction false} DecimalValue(n: nat)
    ensures DigitsValue(Decimal(n)) == n
    decreases n
  {
    if n >= 10 {
      DecimalValue(n / 10);
      var s := Decimal(n);
      assert s[..|s| - 1] == Decimal(n / 10);
    }
  }

  /** A number below 10^k needs at most k digits. */
  lemma {:induction false} DecimalLength(n: nat, k: nat)
    requires k >= 1 && n < Pow10(k)
    ensures |Decimal(n)| <= k
    decreases n
  {
    if n >= 10 {
      assert k >= 2;
      DecimalLength(n / 10, k - 1);
    }
  }

  /** Left-pads with '0' up to `width` characters. */
  function ZeroPad(s: string, width: nat): (r: string)
    ensures |r| == if |s| >= width then |s| else width
    ensures r[|r| - |s|..] == s
    ensures forall i :: 0 <= i < |r| - |s| ==> r[i] == '0'
  {
    if |s| >= width then s else seq(width - |s|, _ => '0') + s
  }

  /** Leading zeros do not change the value. */
  lemma {:induction false} LeadingZeros(s: string, k: nat)
    requires AllDigits(s)
    ensures AllDigits(seq(k, _ => '0') + s)
    ensures DigitsValue(seq(k, _ => '0') + s) == DigitsValue(s)
    decreases |s|
  {
    var z: string := seq(k, _ => '0');
    if s == [] {
      assert z + s == z;
      ZerosValue(k);
    } else {
      var init := s[..|s| - 1];
      LeadingZeros(init, k);
      assert (z + s)[..|z + s| - 1] == z + init;
    }
  }

  lemma {:induction false} ZerosValue(k: nat)
    ensures DigitsValue(seq(k, _ => '0')) == 0
    decreases k
  {
    if k > 0 {
      var z: string := seq(k, _ => '0');
      assert z[..k - 1] == seq(k - 1, _ => '0');
      ZerosValue(k - 1);
    }
  }

  /** The media layer's SAS: the first four digest bytes read big-endian,
      reduced modulo 10^length, written zero-padded to `length` digits. */
  function GenerateSas(digest: Digest, length: nat): (code: string)
    ensures AllDigits(code)
    ensures length >= 1 ==> |code| == length
    ensures length == 0 ==> code == "0"
    ensures DigitsValue(code) == BigEndianValue(digest[..4]) % Pow10(length)
  {
    var value := BigEndianValue(digest[..4]) % Pow10(length);
    PaddedDecimal(value, length);
    ZeroPad(Decimal(value), length)
  }

  /** A zero-padded decimal keeps its value, and pads to exactly `width`
      digits when the number has at most that many. */
  lemma PaddedDecimal(n: nat, width: nat)
    requires n < Pow10(width)
    ensures AllDigits(ZeroPad(Decimal(n), width))
    ensures DigitsValue(ZeroPad(Decimal(n), width)) == n
    ensures width >= 1 ==> |ZeroPad(Decimal(n), width)| == width
    ensures width == 0 ==> ZeroPad(Decimal(n), width) == "0"
  {
    var d := Decimal(n);
    DecimalValue(n);
    if width >= 1 {
      DecimalLength(n, width);
    } else {
      assert n == 0;
      assert d == [DigitChar(0)];
    }
    var k := |ZeroPad(d, width)| - |d|;
    PadIsZeros(d, width);
    LeadingZeros(d, k);
  }

  /** Padding puts exactly the missing number of '0's in front. */
  lemma PadIsZeros(s: string, width: nat)
    ensures ZeroPad(s, width) == seq(|ZeroPad(s, width)| - |s|, _ => '0') + s
  {
  }

  /** The default four-digit code for a digest whose first bytes are
      00 00 1C 2E reads "7214". */
  lemma SasExample(digest: Digest)
    requires digest[..4] == [0x00, 0x00, 0x1C, 0x2E]
    ensures GenerateSas(digest, 4) == "7214"
  {
    BigEndian4(0x00, 0x00, 0x1C, 0x2E);
    assert Pow10(4) == 10000 by {
      assert Pow10(1) == 10 && Pow10(2) == 100 && Pow10(3) == 1000;
    }
    assert 7214 / 10 == 721 && 7214 % 10 == 4;
    assert 721 / 10 == 72 && 721 % 10 == 1;
    assert 72 / 10 == 7 && 72 % 10 == 2;
    assert Decimal(72) == [DigitChar(7), DigitChar(2)];
    assert Decimal(721) == [DigitChar(7), DigitChar(2), DigitChar(1)];
    assert Decimal(7214) == [DigitChar(7), DigitChar(2), DigitChar(1), DigitChar(4)];
  }

  lemma BigEndian4(a: Byte, b: Byte, c: Byte, d: Byte)
    ensures BigEndianValue([a, b, c, d]) == ((a * 256 + b) * 256 + c) * 256 + d
  {
    var s1: Bytes := [a];
    assert s1[..0] == [];
    assert BigEndianValue(s1) == a;
    var s2: Bytes := [a, b];
    assert s2[..1] == s1;
    assert BigEndianValue(s2) == a * 256 + b;
    var s3: Bytes := [a, b, c];
    assert s3[..2] == s2;
    assert BigEndianValue(s3) == (a * 256 + b) * 256 + c;
    var s4: Bytes := [a, b, c, d];
    assert s4[..3] == s3;
  }

  /** Two digits for one byte: the byte modulo 100, zero-padded. */
  function ByteGroup(b: Byte): (g: string)
    ensures |g| == 2 && AllDigits(g) && DigitsValue(g) == b % 100
  {
    GenerateSasDigits(b % 100)
  }

  /** `n` below 100 as exactly two digits. */
  function GenerateSasDigits(n: nat): (g: string)
    requires n < 100
    ensures |g| == 2 && AllDigits(g) && DigitsValue(g) == n
  {
    var g := [DigitChar(n / 10), DigitChar(n % 10)];
    var first: string := [DigitChar(n / 10)];
    assert first[..0] == [];
    assert DigitsValue(first) == n / 10;
    assert g[..1] == first;
    g
  }

  /** Groups joined by '-'. */
  function JoinDash(groups: seq<string>): (s: string)
    ensures groups == [] ==> s == ""
  {
    if groups == [] then ""
    else if |groups| == 1 then groups[0]
    else groups[0] + "-" + JoinDash(groups[1..])
  }

  /** One two-digit group for each of the first `n` bytes. */
  function Groups(hash: Bytes, n: nat): (gs: seq<string>)
    requires n <= |hash|
    ensures |gs| == n && forall i :: 0 <= i < n ==> gs[i] == ByteGroup(hash[i])
  {
    seq(n, i requires 0 <= i < n => ByteGroup(hash[i]))
  }

  /** The telephone layer's SAS: one two-digit group per leading digest byte,
      joined by dashes; asking for more groups than there are bytes fails. */
  function GroupedSas(hash: Bytes, numGroups: nat): (r: Option<string>)
    ensures r.None? <==> numGroups > |hash|
    ensures r.Some? ==> r.value == JoinDash(Groups(hash, numGroups))
  {
    if numGroups > |hash| then None else Some(JoinDash(Groups(hash, numGroups)))
  }

  /** Shape of a joined code: n two-character groups take 3n - 1 characters
      with a dash after every group but the last. */
  lemma {:induction false} JoinDashShape(groups: seq<string>)
    requires groups != [] && forall i :: 0 <= i < |groups| ==> |groups[i]| == 2
    ensures |JoinDash(groups)| == 3 * |groups| - 1
    ensures forall g :: 0 <= g < |groups| ==>
      JoinDash(groups)[3 * g..3 * g + 2] == groups[g]
    ensures forall g :: 0 <= g < |groups| - 1 ==> JoinDash(groups)[3 * g + 2] == '-'
    decreases |groups|
  {
    if |groups| > 1 {
      var rest := groups[1..];
      JoinDashShape(rest);
      var s := JoinDash(groups);
      assert s == groups[0] + "-" + JoinDash(rest);
      forall g | 0 <= g < |groups|
        ensures s[3 * g..3 * g + 2] == groups[g]
      {
        if g > 0 {
          assert s[3 * g..3 * g + 2] == JoinDash(rest)[3 * (g - 1)..3 * (g - 1) + 2];
          assert groups[g] == rest[g - 1];
        }
      }
      forall g | 0 <= g < |groups| - 1
        ensures s[3 * g + 2] == '-'
      {
        if g > 0 {
          assert s[3 * g + 2] == JoinDash(rest)[3 * (g - 1) + 2];
        }
      }
    }
  }

  /** A grouped code of n groups is 3n - 1 characters: group g sits at
      positions 3g and 3g + 1 and spells hash[g] modulo 100, and a dash
      follows every group but the last. */
  lemma GroupedSasShape(hash: Bytes, numGroups: nat)
    requires 1 <= numGroups <= |hash|
    ensures var code := GroupedSas(hash, numGroups).value;
      && |code| == 3 * numGroups - 1
      && (forall g :: 0 <= g < numGroups ==> code[3 * g..3 * g + 2] == ByteGroup(hash[g]))
      && (forall g :: 0 <= g < numGroups - 1 ==> code[3 * g + 2] == '-')
  {
    JoinDashShape(Groups(hash, numGroups));
  }
}
