/** The text and byte encodings the protocol relies on: decimal and
    hexadecimal digit strings (`str(n)`, `format(n, "x")`, `int(s, 16)`),
    byte strings as hex (`bytes.hex()`, `bytes.fromhex`), UTF-8
    (`str.encode("utf-8")`) and big-endian integers (`int.to_bytes`,
    `int.from_bytes`, `int.bit_length`). */
module Encoding {
  import opened Wrappers
  import opened ModArith

  type byte = x: int | 0 <= x < 256

  // ---------------------------------------------------------------------
  // Digit strings

  /** The lower-case digit Python prints for d. */
  function DigitChar(d: nat): char
    requires d < 16
  {
    if d < 10 then ('0' as int + d) as char else ('a' as int + d - 10) as char
  }

  /** The value `int(_, 16)` gives a single digit, upper or lower case. */
  function DigitValue(c: char): Option<nat>
  {
    if '0' <= c <= '9' then Some(c as int - '0' as int)
    else if 'a' <= c <= 'f' then Some(c as int - 'a' as int + 10)
    else if 'A' <= c <= 'F' then Some(c as int - 'A' as int + 10)
    else None
  }

  predicate IsDigitIn(c: char, base: nat)
  {
    DigitValue(c).Some? && DigitValue(c).value < base
  }

  lemma DigitRoundTrip(d: nat)
    requires d < 16
    ensures DigitValue(DigitChar(d)) == Some(d)
  {
  }

  /** The digits of n in base 10 or 16, most significant first, without
      leading zeros ("0" for zero). */
  function ToBase(n: nat, base: nat): (s: string)
    requires base == 10 || base == 16
    ensures |s| >= 1
    ensures forall i :: 0 <= i < |s| ==> IsDigitIn(s[i], base)
    decreases n
  {
    if n < base then [DigitChar(n)] else ToBase(n / base, base) + [DigitChar(n % base)]
  }

  /** `str(n)` for a non-negative integer. */
  function Decimal(n: nat): string
  {
    ToBase(n, 10)
  }

  /** `format(n, "x")` for a non-negative integer. */
  function Hex(n: nat): string
  {
    ToBase(n, 16)
  }

  /** The value of a string made only of digits below `base`. */
  function ParseDigits(s: string, base: nat): Option<nat>
    decreases |s|
  {
    if s == [] then Some(0)
    else
      match ParseDigits(s[..|s| - 1], base)
      case None => None
      case Some(high) =>
        if IsDigitIn(s[|s| - 1], base) then Some(high * base + DigitValue(s[|s| - 1]).value)
        else None
  }

  /** `int(s, base)` restricted to plain digit strings; None where Python
      raises `ValueError`. */
  function FromBase(s: string, base: nat): Option<nat>
  {
    if s == [] then None else ParseDigits(s, base)
  }

  /** `int(s, 16)`. */
  function FromHex(s: string): Option<nat>
  {
    FromBase(s, 16)
  }

  lemma {:induction false} BaseRoundTrip(n: nat, base: nat)
    requires base == 10 || base == 16
    ensures FromBase(ToBase(n, base), base) == Some(n)
    decreases n
  {
    if n < base {
      DigitRoundTrip(n);
      var s := [DigitChar(n)];
      assert s[..0] == [];
      assert ParseDigits(s[..0], base) == Some(0);
      assert IsDigitIn(s[0], base);
    } else {
      var s := ToBase(n / base, base);
      BaseRoundTrip(n / base, base);
      DigitRoundTrip(n % base);
      assert (s + [DigitChar(n % base)])[..|s|] == s;
    }
  }

  /** Hex round trip: `int(format(n, "x"), 16) == n`. */
  lemma HexRoundTrip(n: nat)
    ensures FromHex(Hex(n)) == Some(n)
  {
    BaseRoundTrip(n, 16);
  }

  lemma HexInjective(a: nat, b: nat)
    ensures Hex(a) == Hex(b) <==> a == b
  {
    HexRoundTrip(a);
    HexRoundTrip(b);
  }

  lemma DecimalInjective(a: nat, b: nat)
    ensures Decimal(a) == Decimal(b) <==> a == b
  {
    BaseRoundTrip(a, 10);
    BaseRoundTrip(b, 10);
  }

  /** A decimal numeral holds no character outside '0'..'9'. */
  lemma DecimalHasOnlyDigits(n: nat, c: char)
    requires c in Decimal(n)
    ensures '0' <= c <= '9'
  {
    var i :| 0 <= i < |Decimal(n)| && Decimal(n)[i] == c;
    assert IsDigitIn(Decimal(n)[i], 10);
  }

  // ---------------------------------------------------------------------
  // Byte strings as hex

  /** `bytes.hex()`: two lower-case digits per byte. */
  function BytesToHex(bs: seq<byte>): (s: string)
    ensures |s| == 2 * |bs|
  {
    if bs == [] then [] else [DigitChar(bs[0] / 16), DigitChar(bs[0] % 16)] + BytesToHex(bs[1..])
  }

  /** The characters `bytes.fromhex` skips: space, tab, line feed,
      vertical tab, form feed and carriage return. */
  predicate IsAsciiSpace(c: char)
  {
    c == ' ' || '\t' <= c <= '\r'
  }

  /** `bytes.fromhex(s)`: ASCII whitespace before each two-digit pair and
      at the end is skipped, but a pair may not be split; None where
      Python raises `ValueError`. */
  function BytesFromHex(s: string): Option<seq<byte>>
    decreases |s|
  {
    if s == [] then Some([])
    else if IsAsciiSpace(s[0]) then BytesFromHex(s[1..])
    else if |s| == 1 then None
    else if IsDigitIn(s[0], 16) && IsDigitIn(s[1], 16) then
      match BytesFromHex(s[2..])
      case None => None
      case Some(rest) => Some([DigitValue(s[0]).value * 16 + DigitValue(s[1]).value] + rest)
    else None
  }

  /** Whitespace before the digits changes nothing: `bytes.fromhex`
      reads `" \n" + s` as it reads s. */
  lemma {:induction false} BytesFromHexSkipsSpace(spaces: string, s: string)
    requires forall i :: 0 <= i < |spaces| ==> IsAsciiSpace(spaces[i])
    ensures BytesFromHex(spaces + s) == BytesFromHex(s)
    decreases |spaces|
  {
    if spaces != [] {
      var t := spaces + s;
      assert t != [] && t[0] == spaces[0] && IsAsciiSpace(t[0]);
      assert t[1..] == spaces[1..] + s;
      assert BytesFromHex(t) == BytesFromHex(t[1..]);
      BytesFromHexSkipsSpace(spaces[1..], s);
    } else {
      assert spaces + s == s;
    }
  }

  lemma {:induction false} BytesHexRoundTrip(bs: seq<byte>)
    ensures BytesFromHex(BytesToHex(bs)) == Some(bs)
    decreases |bs|
  {
    if bs != [] {
      var s := BytesToHex(bs);
      DigitRoundTrip(bs[0] / 16);
      DigitRoundTrip(bs[0] % 16);
      assert s[2..] == BytesToHex(bs[1..]);
      BytesHexRoundTrip(bs[1..]);
      assert [bs[0]] + bs[1..] == bs;
    }
  }

  // ---------------------------------------------------------------------
  // UTF-8

  /** The UTF-8 encoding of one Unicode scalar value. */
  function EncodeChar(c: char): (bs: seq<byte>)
    ensures 1 <= |bs| <= 4
  {
    var n := c as int;
    if n < 0x80 then [n]
    else if n < 0x800 then [0xC0 + n / 64, 0x80 + n % 64]
    else if n < 0x10000 then [0xE0 + n / 4096, 0x80 + (n / 64) % 64, 0x80 + n % 64]
    else [0xF0 + n / 262144, 0x80 + (n / 4096) % 64, 0x80 + (n / 64) % 64, 0x80 + n % 64]
  }

  /** How many bytes a UTF-8 sequence starting with `lead` occupies. */
  function SequenceLength(lead: byte): nat
  {
    if lead < 0x80 then 1 else if lead < 0xE0 then 2 else if lead < 0xF0 then 3 else 4
  }

  /** The scalar value a well-formed UTF-8 sequence for one character denotes. */
  function DecodeChar(bs: seq<byte>): int
    requires 1 <= |bs| <= 4
  {
    var b: seq<int> := bs;
    if |b| == 1 then b[0]
    else if |b| == 2 then (b[0] - 0xC0) * 64 + (b[1] - 0x80)
    else if |b| == 3 then (b[0] - 0xE0) * 4096 + (b[1] - 0x80) * 64 + (b[2] - 0x80)
    else (b[0] - 0xF0) * 262144 + (b[1] - 0x80) * 4096 + (b[2] - 0x80) * 64 + (b[3] - 0x80)
  }

  lemma EncodeCharDecodes(c: char)
    ensures SequenceLength(EncodeChar(c)[0]) == |EncodeChar(c)|
    ensures DecodeChar(EncodeChar(c)) == c as int
  {
    var n := c as int;
    var bs := EncodeChar(c);
    if n < 0x80 {
    } else if n < 0x800 {
      SixBitDigits(n);
      assert bs == [0xC0 + n / 64, 0x80 + n % 64];
    } else if n < 0x10000 {
      SixBitDigits(n);
      SixBitDigits(n / 64);
      assert bs == [0xE0 + n / 4096, 0x80 + (n / 64) % 64, 0x80 + n % 64];
    } else {
      SixBitDigits(n);
      SixBitDigits(n / 64);
      SixBitDigits(n / 4096);
      assert bs == [0xF0 + n / 262144, 0x80 + (n / 4096) % 64, 0x80 + (n / 64) % 64, 0x80 + n % 64];
    }
  }

  /** Splitting off the low six bits, as UTF-8 continuation bytes do. */
  lemma SixBitDigits(n: nat)
    ensures n == (n / 64) * 64 + n % 64 && n % 64 < 64
    ensures n / 64 / 64 == n / 4096 && n / 4096 / 64 == n / 262144
  {
  }

  /** `s.encode("utf-8")`. */
  function Utf8(s: string): seq<byte>
  {
    if s == [] then [] else EncodeChar(s[0]) + Utf8(s[1..])
  }

  lemma {:induction false} Utf8Append(a: string, b: string)
    ensures Utf8(a + b) == Utf8(a) + Utf8(b)
    decreases |a|
  {
    if a != [] {
      assert (a + b)[1..] == a[1..] + b;
      Utf8Append(a[1..], b);
    } else {
      assert a + b == b;
    }
  }

  /** UTF-8 is injective: distinct texts give distinct byte strings. */
  lemma {:induction false} Utf8Injective(a: string, b: string)
    requires Utf8(a) == Utf8(b)
    ensures a == b
    decreases |a|
  {
    if a != [] && b != [] {
      var ea, eb := EncodeChar(a[0]), EncodeChar(b[0]);
      EncodeCharDecodes(a[0]);
      EncodeCharDecodes(b[0]);
      assert ea[0] == Utf8(a)[0] == eb[0];
      assert |ea| == |eb|;
      assert ea == Utf8(a)[..|ea|] == eb;
      assert a[0] as int == b[0] as int;
      assert Utf8(a[1..]) == Utf8(a)[|ea|..] == Utf8(b[1..]);
      Utf8Injective(a[1..], b[1..]);
      assert a == [a[0]] + a[1..];
      assert b == [b[0]] + b[1..];
    }
  }

  // ---------------------------------------------------------------------
  // Big-endian integers

  /** `int.from_bytes(bs, "big")`. */
  function BytesToNat(bs: seq<byte>): nat
    decreases |bs|
  {
    if bs == [] then 0 else BytesToNat(bs[..|bs| - 1]) * 256 + bs[|bs| - 1]
  }

  /** `v.to_bytes(len, "big")`: the low `len` bytes of v, most significant
      first. Python raises `OverflowError` when v does not fit; the protocol
      only encodes values that do (see `NatToBytesValue`). */
  function NatToBytes(v: nat, len: nat): (bs: seq<byte>)
    ensures |bs| == len
    decreases len
  {
    if len == 0 then [] else NatToBytes(v / 256, len - 1) + [v % 256]
  }

  /** A value that fits in `len` bytes is read back by `int.from_bytes`. */
  lemma {:induction false} NatToBytesValue(v: nat, len: nat)
    requires v < Pow(256, len)
    ensures BytesToNat(NatToBytes(v, len)) == v
    decreases len
  {
    if len > 0 {
      var high := NatToBytes(v / 256, len - 1);
      assert v / 256 < Pow(256, len - 1);
      NatToBytesValue(v / 256, len - 1);
      assert NatToBytes(v, len)[..len - 1] == high;
    }
  }

  /** `n.bit_length()`. */
  function BitLength(n: nat): nat
    decreases n
  {
    if n == 0 then 0 else 1 + BitLength(n / 2)
  }

  lemma {:induction false} BitLengthBound(n: nat)
    ensures n < Pow(2, BitLength(n))
    decreases n
  {
    if n > 0 {
      BitLengthBound(n / 2);
    }
  }

  lemma {:induction false} PowTwoMonotone(a: nat, b: nat)
    requires a <= b
    ensures Pow(2, a) <= Pow(2, b)
    decreases b
  {
    if a < b {
      PowTwoMonotone(a, b - 1);
      PowPositive(2, b - 1);
    }
  }

  lemma {:induction false} PowPositive(x: nat, e: nat)
    requires x > 0
    ensures Pow(x, e) > 0
    decreases e
  {
    if e > 0 {
      PowPositive(x, e - 1);
    }
  }

  /** Every value below n fits in `(n.bit_length() + 7) // 8` bytes. */
  lemma FitsInByteLength(v: nat, n: nat)
    requires v < n
    ensures v < Pow(256, (BitLength(n) + 7) / 8)
  {
    var k := (BitLength(n) + 7) / 8;
    BitLengthBound(n);
    PowTwoMonotone(BitLength(n), 8 * k);
    PowMul(2, 8, k);
    assert Pow(2, 8) == 256;
  }
}
