/**
 The Base64urlUInt encoding of key parameters (section 2 of RFC 7518) as the token service computes
 it: the shortest big-endian octets, base64url (section 5 of RFC 4648), trailing padding stripped.
 */
module Base64Url {
  import opened Options

  type Octet = b: int | 0 <= b < 256 witness 0
  type Sextet = b: int | 0 <= b < 64 witness 0

  // ---------------------------------------------------------------------------------------------
  // int.bit_length and int.to_bytes(length, "big")
  // ---------------------------------------------------------------------------------------------

  function BitLength(v: nat): nat {
    if v == 0 then 0 else 1 + BitLength(v / 2)
  }

  function Power(base: nat, exponent: nat): nat {
    if exponent == 0 then 1 else base * Power(base, exponent - 1)
  }

  /** OverflowError (not modelled) is what the precondition excludes; `RawFits` shows it never arises. */
  function ToBytes(v: nat, length: nat): (octets: seq<Octet>)
    requires v < Power(256, length)
    ensures |octets| == length
  {
    if length == 0 then [] else ToBytes(v / 256, length - 1) + [v % 256]
  }

  function FromBytes(octets: seq<Octet>): nat {
    if octets == [] then 0 else 256 * FromBytes(octets[..|octets| - 1]) + octets[|octets| - 1]
  }

  lemma {:induction false} BitLengthBounds(v: nat)
    ensures v < Power(2, BitLength(v))
    ensures v > 0 ==> BitLength(v) > 0 && Power(2, BitLength(v) - 1) <= v
  {
    if v > 0 {
      BitLengthBounds(v / 2);
    }
  }

  lemma EightMoreBits(n: nat)
    ensures Power(2, n + 8) == 256 * Power(2, n)
  {
    assert Power(2, n + 4) == 2 * Power(2, n + 3) == 4 * Power(2, n + 2) == 8 * Power(2, n + 1) == 16 * Power(2, n);
    assert Power(2, n + 8) == 2 * Power(2, n + 7) == 4 * Power(2, n + 6) == 8 * Power(2, n + 5) == 16 * Power(2, n + 4);
  }

  lemma {:induction false} PowerIsMonotone(a: nat, b: nat)
    requires a <= b
    ensures Power(2, a) <= Power(2, b)
    decreases b - a
  {
    if a < b {
      PowerIsMonotone(a, b - 1);
    }
  }

  lemma {:induction false} OctetsAreEightBits(length: nat)
    ensures Power(256, length) == Power(2, 8 * length)
  {
    if length > 0 {
      OctetsAreEightBits(length - 1);
      EightMoreBits(8 * (length - 1));
    }
  }

  function RawLength(v: nat): nat { (BitLength(v) + 7) / 8 }

  /** to_bytes never overflows, and one octet fewer would not do. */
  lemma RawFits(v: nat)
    ensures v < Power(256, RawLength(v))
    ensures v > 0 ==> RawLength(v) > 0 && Power(256, RawLength(v) - 1) <= v
  {
    var n := RawLength(v);
    BitLengthBounds(v);
    OctetsAreEightBits(n);
    PowerIsMonotone(BitLength(v), 8 * n);
    if v > 0 {
      OctetsAreEightBits(n - 1);
      PowerIsMonotone(8 * (n - 1), BitLength(v) - 1);
    }
  }

  lemma {:induction false} FromToBytes(v: nat, length: nat)
    requires v < Power(256, length)
    ensures FromBytes(ToBytes(v, length)) == v
    ensures length > 0 && Power(256, length - 1) <= v ==> ToBytes(v, length)[0] != 0
  {
    if length > 0 {
      var front := ToBytes(v / 256, length - 1);
      FromToBytes(v / 256, length - 1);
      assert ToBytes(v, length)[..length - 1] == front;
      if length > 1 && Power(256, length - 1) <= v {
        assert Power(256, length - 2) <= v / 256;
        assert ToBytes(v, length)[0] == front[0];
      }
    }
  }

  // ---------------------------------------------------------------------------------------------
  // base64.urlsafe_b64encode and a decoder
  // ---------------------------------------------------------------------------------------------

  function Digit(k: Sextet): (c: char)
    ensures c != '='
  {
    if k < 26 then ('A' as int + k) as char
    else if k < 52 then ('a' as int + k - 26) as char
    else if k < 62 then ('0' as int + k - 52) as char
    else if k == 62 then '-'
    else '_'
  }

  function Value(c: char): Option<Sextet> {
    if 'A' <= c <= 'Z' then Some(c as int - 'A' as int)
    else if 'a' <= c <= 'z' then Some(c as int - 'a' as int + 26)
    else if '0' <= c <= '9' then Some(c as int - '0' as int + 52)
    else if c == '-' then Some(62)
    else if c == '_' then Some(63)
    else None
  }

  lemma ValueOfDigit(k: Sextet)
    ensures Value(Digit(k)) == Some(k)
  {}

  lemma DigitOfValue(c: char)
    requires Value(c).Some?
    ensures Digit(Value(c).value) == c
  {}

  function Digits(sextets: seq<Sextet>): (s: string)
    ensures |s| == |sextets|
    ensures forall i :: 0 <= i < |s| ==> s[i] == Digit(sextets[i])
  {
    seq(|sextets|, i requires 0 <= i < |sextets| => Digit(sextets[i]))
  }

  function Values(s: string): (r: Option<seq<Sextet>>)
    ensures r.Some? ==> |r.value| == |s| && forall i :: 0 <= i < |s| ==> Value(s[i]) == Some(r.value[i])
    ensures r.None? ==> exists i :: 0 <= i < |s| && Value(s[i]).None?
  {
    if s == "" then Some([])
    else if Value(s[0]).None? then None
    else
      match Values(s[1..])
      case None => None
      case Some(rest) => Some([Value(s[0]).value] + rest)
  }

  function Bits1(x: Octet): Sextet { x / 4 }

  function Bits2(x: Octet, y: Octet): Sextet { x % 4 * 16 + y / 16 }

  function Bits3(y: Octet, z: Octet): Sextet { y % 16 * 4 + z / 64 }

  function Bits4(z: Octet): Sextet { z % 64 }

  /** Three octets become four sextets; a last group of one or two octets is filled with zero bits. */
  function Sextets(octets: seq<Octet>): seq<Sextet> {
    if octets == [] then []
    else
      var x := octets[0];
      if |octets| == 1 then [Bits1(x), Bits2(x, 0)]
      else
        var y := octets[1];
        if |octets| == 2 then [Bits1(x), Bits2(x, y), Bits3(y, 0)]
        else
          [Bits1(x), Bits2(x, y), Bits3(y, octets[2]), Bits4(octets[2])] + Sextets(octets[3..])
  }

  /** urlsafe_b64encode: digits, then `=` up to a multiple of four. */
  function Encode(octets: seq<Octet>): string {
    Digits(Sextets(octets)) + seq((3 - |octets| % 3) % 3, _ => '=')
  }

  /** rstrip(b"=") */
  function StripPadding(s: string): string {
    if s != "" && s[|s| - 1] == '=' then StripPadding(s[..|s| - 1]) else s
  }

  function EncodeUInt(v: nat): string {
    RawFits(v);
    StripPadding(Encode(ToBytes(v, RawLength(v))))
  }

  function First(a: Sextet, b: Sextet): Octet { a * 4 + b / 16 }

  function Second(b: Sextet, c: Sextet): Octet { b % 16 * 16 + c / 4 }

  function Third(c: Sextet, d: Sextet): Octet { c % 4 * 64 + d }

  /** The octets a list of sextets stands for; a last group must have two or three, with zero fill bits. */
  function Octets(sextets: seq<Sextet>): Option<seq<Octet>> {
    if sextets == [] then Some([])
    else if |sextets| == 1 then None
    else if |sextets| == 2 then
      if sextets[1] % 16 == 0 then Some([First(sextets[0], sextets[1])]) else None
    else if |sextets| == 3 then
      if sextets[2] % 4 == 0 then
        Some([First(sextets[0], sextets[1]), Second(sextets[1], sextets[2])])
      else None
    else
      match Octets(sextets[4..])
      case None => None
      case Some(rest) =>
        Some([First(sextets[0], sextets[1]), Second(sextets[1], sextets[2]), Third(sextets[2], sextets[3])] + rest)
  }

  /** Section 5 of RFC 4648, for text without padding. */
  function Decode(s: string): Option<seq<Octet>> {
    match Values(s)
    case None => None
    case Some(sextets) => Octets(sextets)
  }

  lemma Regroup(x: Octet, y: Octet, z: Octet)
    ensures First(Bits1(x), Bits2(x, y)) == x
    ensures Second(Bits2(x, y), Bits3(y, z)) == y
    ensures Third(Bits3(y, z), Bits4(z)) == z
  {}

  lemma FillBits(x: Octet, y: Octet)
    ensures Bits2(x, 0) % 16 == 0 && Bits3(y, 0) % 4 == 0
  {}

  lemma RegroupBack(a: Sextet, b: Sextet, c: Sextet, d: Sextet)
    ensures Bits1(First(a, b)) == a
    ensures Bits2(First(a, b), Second(b, c)) == b
    ensures Bits3(Second(b, c), Third(c, d)) == c
    ensures Bits4(Third(c, d)) == d
  {}

  lemma {:induction false} OctetsOfSextets(octets: seq<Octet>)
    ensures Octets(Sextets(octets)) == Some(octets)
  {
    hide First, Second, Third, Bits1, Bits2, Bits3, Bits4;
    if |octets| >= 3 {
      OctetsOfSextets(octets[3..]);
      Regroup(octets[0], octets[1], octets[2]);
      assert Sextets(octets)[4..] == Sextets(octets[3..]);
      assert Octets(Sextets(octets)).value == octets[..3] + octets[3..] == octets;
    } else if |octets| == 2 {
      Regroup(octets[0], octets[1], 0);
      FillBits(octets[0], octets[1]);
      assert Octets(Sextets(octets)).value == octets;
    } else if |octets| == 1 {
      Regroup(octets[0], 0, 0);
      FillBits(octets[0], 0);
      assert Octets(Sextets(octets)).value == octets;
    }
  }

  lemma {:induction false} SextetsOfOctets(sextets: seq<Sextet>)
    requires Octets(sextets).Some?
    ensures Sextets(Octets(sextets).value) == sextets
  {
    hide First, Second, Third, Bits1, Bits4;
    if |sextets| >= 4 {
      SextetsOfOctets(sextets[4..]);
      RegroupBack(sextets[0], sextets[1], sextets[2], sextets[3]);
      assert Octets(sextets).value[3..] == Octets(sextets[4..]).value;
      assert sextets == sextets[..4] + sextets[4..];
    } else if |sextets| == 3 {
      RegroupBack(sextets[0], sextets[1], sextets[2], 0);
      assert Third(sextets[2], 0) == 0 by { ThirdOfZero(sextets[2]); }
      assert Sextets(Octets(sextets).value) == sextets;
    } else if |sextets| == 2 {
      RegroupBack(sextets[0], sextets[1], 0, 0);
      assert Second(sextets[1], 0) == 0 by { SecondOfZero(sextets[1]); }
      assert Sextets(Octets(sextets).value) == sextets;
    }
  }

  lemma ThirdOfZero(c: Sextet)
    requires c % 4 == 0
    ensures Third(c, 0) == 0
  {}

  lemma SecondOfZero(b: Sextet)
    requires b % 16 == 0
    ensures Second(b, 0) == 0
  {}

  lemma ValuesOfDigits(sextets: seq<Sextet>)
    ensures Values(Digits(sextets)) == Some(sextets)
  {
    var s := Digits(sextets);
    forall i | 0 <= i < |s| ensures Value(s[i]) == Some(sextets[i]) {
      ValueOfDigit(sextets[i]);
    }
    assert Values(s).Some?;
    assert Values(s).value == sextets;
  }

  lemma DigitsOfValues(s: string)
    requires Values(s).Some?
    ensures Digits(Values(s).value) == s
  {
    forall i | 0 <= i < |s| ensures Digit(Values(s).value[i]) == s[i] {
      DigitOfValue(s[i]);
    }
  }

  lemma {:induction false} StripKeepsDigits(digits: string, count: nat)
    requires digits != "" ==> digits[|digits| - 1] != '='
    ensures StripPadding(digits + seq(count, _ => '=')) == digits
  {
    var s := digits + seq(count, _ => '=');
    if count == 0 {
      assert s == digits;
    } else {
      assert s[..|s| - 1] == digits + seq(count - 1, _ => '=');
      StripKeepsDigits(digits, count - 1);
    }
  }

  lemma StrippedEncoding(octets: seq<Octet>)
    ensures StripPadding(Encode(octets)) == Digits(Sextets(octets))
  {
    StripKeepsDigits(Digits(Sextets(octets)), (3 - |octets| % 3) % 3);
  }

  /**
   For every v the decoder returns v, from the fewest octets.  Section 2 of RFC 7518 asks for no
   leading zero octet and for zero as the single zero octet: the first holds for every positive v,
   the second is missed exactly at zero, which comes out as the empty string.
   */
  lemma UIntRoundTrip(v: nat)
    ensures Decode(EncodeUInt(v)).Some?
    ensures FromBytes(Decode(EncodeUInt(v)).value) == v
    ensures v > 0 <==> Decode(EncodeUInt(v)).value != [] && Decode(EncodeUInt(v)).value[0] != 0
    ensures EncodeUInt(v) == "" <==> v == 0
  {
    RawFits(v);
    var raw := ToBytes(v, RawLength(v));
    FromToBytes(v, RawLength(v));
    StrippedEncoding(raw);
    ValuesOfDigits(Sextets(raw));
    OctetsOfSextets(raw);
  }

  /** Different key parameters never share an encoding. */
  lemma EncodingIsInjective(v: nat, w: nat)
    requires EncodeUInt(v) == EncodeUInt(w)
    ensures v == w
  {
    UIntRoundTrip(v);
    UIntRoundTrip(w);
  }

  /** The decoder accepts only what the encoder writes. */
  lemma EncodeOfDecode(s: string)
    requires Decode(s).Some?
    ensures StripPadding(Encode(Decode(s).value)) == s
  {
    StrippedEncoding(Decode(s).value);
    SextetsOfOctets(Values(s).value);
    DigitsOfValues(s);
  }
}
