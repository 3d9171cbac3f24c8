/**
 * The UUID value object: one immutable 16-byte value and the views of it
 * that section 4.1.2 of RFC 4122 defines (fields, time, clock sequence,
 * node) and that section 3 of RFC 4122 defines (the hyphenated string
 * form).
 */
module Uuid {
  import opened Common
  import opened Bits

  type Bytes16 = s: seq<byte> | |s| == 16
    witness [0, 0, 0, 0, 0, 0, 0, 0, 0, 0, 0, 0, 0, 0, 0, 0]

  /** A UUID holds its 16 bytes, most significant first; `value` is `UUID.bytes`. */
  datatype Uuid = Uuid(value: Bytes16)

  // ----- integer form -----

  /** `UUID.int_val`: the bytes read as one big-endian integer. */
  function IntVal(u: Uuid): (r: nat)
    ensures r < Pow256(16)
  {
    BigEndian(u.value)
  }

  /** The UUID whose integer form is `n`. */
  function FromInt(n: nat): Uuid
    requires n < Pow256(16)
  {
    Uuid(ToBigEndian(n, 16))
  }

  /** The integer form loses nothing: the bytes come back from it. */
  lemma IntValRoundTrip(u: Uuid, n: nat)
    requires n < Pow256(16)
    ensures FromInt(IntVal(u)) == u
    ensures IntVal(FromInt(n)) == n
  {
    ToBigEndianOfBigEndian(u.value);
    BigEndianOfToBigEndian(n, 16);
  }

  // ----- hexadecimal and string forms -----

  /** The lower-case hexadecimal digit of `d`. */
  function Digit(d: nat): char
    requires d < 16
  {
    "0123456789abcdef"[d]
  }

  predicate IsHexDigit(c: char) {
    '0' <= c <= '9' || 'a' <= c <= 'f' || 'A' <= c <= 'F'
  }

  function DigitValue(c: char): (r: nat)
    requires IsHexDigit(c)
    ensures r < 16
  {
    if '0' <= c <= '9' then (c - '0') as nat
    else if 'a' <= c <= 'f' then (c - 'a') as nat + 10
    else (c - 'A') as nat + 10
  }

  function Pow16(n: nat): (r: nat)
    ensures r >= 1
  {
    if n == 0 then 1 else 16 * Pow16(n - 1)
  }

  /** Python's `'%0{w}x' % n`: the low `w` hexadecimal digits of `n`, zero-padded. */
  function HexDigits(n: nat, w: nat): (r: string)
    ensures |r| == w
    ensures forall i :: 0 <= i < |r| ==> r[i] in "0123456789abcdef"
  {
    if w == 0 then [] else HexDigits(n / 16, w - 1) + [Digit(n % 16)]
  }

  /** The value of a string of hexadecimal digits, most significant first. */
  function HexValue(s: string): nat
    requires forall i :: 0 <= i < |s| ==> IsHexDigit(s[i])
  {
    if s == [] then 0 else HexValue(s[..|s| - 1]) * 16 + DigitValue(s[|s| - 1])
  }

  /** Two digits per byte, in byte order: the high nibble, then the low one. */
  function ByteHex(s: seq<byte>): (r: string)
    ensures |r| == 2 * |s|
    ensures forall i :: 0 <= i < |s| ==> r[2 * i] == Digit(s[i] as nat / 16) && r[2 * i + 1] == Digit(s[i] as nat % 16)
  {
    if s == [] then []
    else ByteHex(s[..|s| - 1]) + [Digit(s[|s| - 1] as nat / 16), Digit(s[|s| - 1] as nat % 16)]
  }

  /** `UUID.hex`: the integer form as 32 lower-case hexadecimal digits. */
  function Hex(u: Uuid): (r: string)
    ensures |r| == 32
    ensures forall i :: 0 <= i < |r| ==> r[i] in "0123456789abcdef"
  {
    HexDigits(IntVal(u), 32)
  }

  /** `str(UUID)`: the hex form with hyphens after digits 8, 12, 16 and 20. */
  function Str(u: Uuid): (r: string)
    ensures |r| == 36
  {
    Hyphenate(Hex(u))
  }

  /** The 8-4-4-4-12 grouping of 32 digits. */
  function Hyphenate(h: string): string
    requires |h| == 32
  {
    h[..8] + "-" + h[8..12] + "-" + h[12..16] + "-" + h[16..20] + "-" + h[20..]
  }

  /** `repr(UUID)`: the string form, quoted, inside `UUID(...)`. */
  function Repr(u: Uuid): (r: string)
    ensures |r| == 44
    ensures r[..6] == "UUID('" && r[42..] == "')"
    ensures r[6..42] == Str(u)
  {
    var s := Str(u);
    ReprParts(s);
    "UUID('" + s + "')"
  }

  /** The parts of a `repr` sit at their own positions. */
  lemma ReprParts(s: string)
    requires |s| == 36
    ensures |"UUID('" + s + "')"| == 44
    ensures ("UUID('" + s + "')")[..6] == "UUID('" && ("UUID('" + s + "')")[42..] == "')"
    ensures ("UUID('" + s + "')")[6..42] == s
  {
    var p, q := "UUID('", "')";
    assert |p| == 6 && |q| == 2;
    assert (p + s + q)[..6] == p;
    assert (p + s + q)[6..42] == s;
    assert (p + s + q)[42..] == q;
  }

  /** `s` without its hyphens. */
  function WithoutHyphens(s: string): (r: string)
    ensures '-' !in r
  {
    if s == [] then [] else (if s[0] == '-' then [] else [s[0]]) + WithoutHyphens(s[1..])
  }

  /**
   * The UUID a string form denotes: hyphens are dropped and the rest must be
   * 32 hexadecimal digits.
   */
  function Parse(s: string): (r: Option<Uuid>)
  {
    var h := WithoutHyphens(s);
    if |h| == 32 && forall i :: 0 <= i < |h| ==> IsHexDigit(h[i]) then
      HexValueBound(h);
      Pow256IsPow16(16);
      Some(FromInt(HexValue(h)))
    else None
  }

  lemma {:induction false} HexValueBound(s: string)
    requires forall i :: 0 <= i < |s| ==> IsHexDigit(s[i])
    ensures HexValue(s) < Pow16(|s|)
  {
    if s != [] {
      HexValueBound(s[..|s| - 1]);
    }
  }

  lemma {:induction false} Pow256IsPow16(n: nat)
    ensures Pow256(n) == Pow16(2 * n)
  {
    if n > 0 {
      Pow256IsPow16(n - 1);
      assert Pow16(2 * n) == 16 * (16 * Pow16(2 * (n - 1)));
    }
  }

  lemma DigitValueOfDigit(d: nat)
    requires d < 16
    ensures IsHexDigit(Digit(d)) && DigitValue(Digit(d)) == d
  {
  }

  /** Reading the padded digits back gives the number, when it fits. */
  lemma {:induction false} HexValueOfHexDigits(n: nat, w: nat)
    requires n < Pow16(w)
    ensures forall i :: 0 <= i < w ==> IsHexDigit(HexDigits(n, w)[i])
    ensures HexValue(HexDigits(n, w)) == n
  {
    if w > 0 {
      var s := HexDigits(n, w);
      DivModUnique(n, 16, n / 16, n % 16);
      HexValueOfHexDigits(n / 16, w - 1);
      DigitValueOfDigit(n % 16);
      assert s[..w - 1] == HexDigits(n / 16, w - 1);
    }
  }

  /** The digits of a big-endian number are the digits of its bytes, in order. */
  lemma {:induction false} HexDigitsOfBytes(s: seq<byte>)
    ensures HexDigits(BigEndian(s), 2 * |s|) == ByteHex(s)
  {
    if s != [] {
      var init, c := s[..|s| - 1], s[|s| - 1] as nat;
      var n := BigEndian(s);
      assert n == BigEndian(init) * 256 + c;
      assert n == (BigEndian(init) * 16 + c / 16) * 16 + c % 16;
      DivModUnique(n, 16, BigEndian(init) * 16 + c / 16, c % 16);
      DivModUnique(n / 16, 16, BigEndian(init), c / 16);
      HexDigitsOfBytes(init);
      assert 2 * |s| - 2 == 2 * |init|;
    }
  }

  /** `hex` lists the 32 digits of the bytes in order. */
  lemma HexIsBytesInOrder(u: Uuid)
    ensures Hex(u) == ByteHex(u.value)
    ensures forall i :: 0 <= i < 16 ==>
              Hex(u)[2 * i] == Digit(u.value[i] as nat / 16) && Hex(u)[2 * i + 1] == Digit(u.value[i] as nat % 16)
  {
    HexDigitsOfBytes(u.value);
  }

  lemma {:induction false} WithoutHyphensConcat(a: string, b: string)
    ensures WithoutHyphens(a + b) == WithoutHyphens(a) + WithoutHyphens(b)
    decreases |a|
  {
    if a != [] {
      assert (a + b)[0] == a[0] && (a + b)[1..] == a[1..] + b;
      WithoutHyphensConcat(a[1..], b);
    } else {
      assert a + b == b;
    }
  }

  lemma {:induction false} WithoutHyphensKeeps(s: string)
    requires '-' !in s
    ensures WithoutHyphens(s) == s
    decreases |s|
  {
    if s != [] {
      WithoutHyphensKeeps(s[1..]);
    }
  }

  lemma JoinWithHyphen(a: string, b: string)
    ensures WithoutHyphens(a + "-" + b) == WithoutHyphens(a) + WithoutHyphens(b)
  {
    var dash: string := "-";
    assert WithoutHyphens(dash) == [] by {
      assert dash[0] == '-' && dash[1..] == [];
    }
    WithoutHyphensConcat(a, dash);
    assert WithoutHyphens(a + dash) == WithoutHyphens(a);
    WithoutHyphensConcat(a + dash, b);
  }

  /** Dropping the hyphens of the string form gives the hex form. */
  lemma StrIsHyphenatedHex(u: Uuid)
    ensures WithoutHyphens(Str(u)) == Hex(u)
    ensures Str(u)[8] == '-' && Str(u)[13] == '-' && Str(u)[18] == '-' && Str(u)[23] == '-'
  {
    var h := Hex(u);
    assert '-' !in h by {
      assert forall i :: 0 <= i < |h| ==> h[i] in "0123456789abcdef";
    }
    UngroupHyphenated(h);
  }

  lemma UngroupHyphenated(h: string)
    requires |h| == 32 && '-' !in h
    ensures WithoutHyphens(Hyphenate(h)) == h
    ensures Hyphenate(h)[8] == '-' && Hyphenate(h)[13] == '-' && Hyphenate(h)[18] == '-' && Hyphenate(h)[23] == '-'
  {
    var p1, p2, p3, p4, p5 := h[..8], h[8..12], h[12..16], h[16..20], h[20..];
    var a1 := p1 + "-" + p2;
    var a2 := a1 + "-" + p3;
    var a3 := a2 + "-" + p4;
    var a4 := a3 + "-" + p5;
    assert Hyphenate(h) == a4;
    assert WithoutHyphens(a1) == p1 + p2 by {
      JoinWithHyphen(p1, p2);
      KeepsSlice(h, 0, 8);
      KeepsSlice(h, 8, 12);
      assert h[0..8] == p1;
    }
    assert WithoutHyphens(a2) == p1 + p2 + p3 by {
      JoinWithHyphen(a1, p3);
      KeepsSlice(h, 12, 16);
    }
    assert WithoutHyphens(a3) == p1 + p2 + p3 + p4 by {
      JoinWithHyphen(a2, p4);
      KeepsSlice(h, 16, 20);
    }
    assert WithoutHyphens(a4) == p1 + p2 + p3 + p4 + p5 by {
      JoinWithHyphen(a3, p5);
      KeepsSlice(h, 20, 32);
      assert h[20..32] == p5;
    }
    assert h == p1 + p2 + p3 + p4 + p5;
    HyphenPositions(h);
  }

  lemma HyphenPositions(h: string)
    requires |h| == 32
    ensures Hyphenate(h)[8] == '-' && Hyphenate(h)[13] == '-' && Hyphenate(h)[18] == '-' && Hyphenate(h)[23] == '-'
  {
  }

  lemma KeepsSlice(h: string, i: nat, j: nat)
    requires i <= j <= |h| && '-' !in h
    ensures WithoutHyphens(h[i..j]) == h[i..j]
  {
    assert forall k :: 0 <= k < j - i ==> h[i..j][k] == h[i + k];
    WithoutHyphensKeeps(h[i..j]);
  }

  /** The string form parses back to the same UUID. */
  lemma StrRoundTrip(u: Uuid)
    ensures Parse(Str(u)) == Some(u)
  {
    var h := Hex(u);
    assert WithoutHyphens(Str(u)) == h by {
      StrIsHyphenatedHex(u);
    }
    HexValueOfHex(u);
    assert FromInt(HexValue(h)) == u by {
      IntValRoundTrip(u, 0);
    }
  }

  /** The string form sits between the quotes of the `repr`, so the `repr` gives the UUID back. */
  lemma ReprRoundTrip(u: Uuid)
    ensures Parse(Repr(u)[6..42]) == Some(u)
  {
    StrRoundTrip(u);
  }

  // ----- little-endian bytes -----

  /** Bytes 0-3, 4-5 and 6-7 reversed, bytes 8-15 kept. */
  function SwapFirstFields(b: Bytes16): (r: Bytes16)
    ensures r[0..4] == Reversed(b[0..4])
    ensures r[4..6] == Reversed(b[4..6])
    ensures r[6..8] == Reversed(b[6..8])
    ensures r[8..] == b[8..]
  {
    [b[3], b[2], b[1], b[0], b[5], b[4], b[7], b[6]] + b[8..]
  }

  /**
   * `UUID.bytes_le`: `time_low`, `time_mid` and `time_hi_version` least
   * significant byte first, then bytes 8-15 as they are.
   */
  function BytesLe(u: Uuid): (r: Bytes16)
    ensures LittleEndian(r[0..4]) == TimeLow(u)
    ensures LittleEndian(r[4..6]) == TimeMid(u)
    ensures LittleEndian(r[6..8]) == TimeHiVersion(u)
    ensures r[8..] == u.value[8..]
  {
    LittleEndianOfReversed(u.value[0..4]);
    LittleEndianOfReversed(u.value[4..6]);
    LittleEndianOfReversed(u.value[6..8]);
    SwapFirstFields(u.value)
  }

  /** The UUID whose little-endian bytes are `le`. */
  function FromBytesLe(le: Bytes16): Uuid {
    Uuid(SwapFirstFields(le))
  }

  /** Swapping the first fields twice restores the bytes. */
  lemma BytesLeRoundTrip(u: Uuid, le: Bytes16)
    ensures FromBytesLe(BytesLe(u)) == u
    ensures BytesLe(FromBytesLe(le)) == le
  {
    SwapTwice(u.value);
    SwapTwice(le);
  }

  lemma SwapTwice(b: Bytes16)
    ensures SwapFirstFields(SwapFirstFields(b)) == b
  {
    var r := [b[3], b[2], b[1], b[0], b[5], b[4], b[7], b[6]] + b[8..];
    assert SwapFirstFields(b) == r;
    assert r[8..] == b[8..];
    assert b == b[..8] + b[8..];
  }

  /** The powers of two the field masks and shifts use. */
  lemma Pow2Values()
    ensures Pow2(6) == 0x40 && Pow2(8) == 0x100 && Pow2(12) == 0x1000 && Pow2(16) == 0x1_0000
    ensures Pow2(32) == 0x1_0000_0000 && Pow2(48) == 0x1_0000_0000_0000
  {
    assert Pow2(4) == 16;
    assert Pow2(6) == 64;
    Pow2Add(4, 4);
    Pow2Add(8, 4);
    Pow2Add(8, 8);
    Pow2Add(16, 16);
    Pow2Add(32, 16);
  }

  // ----- fields of section 4.1.2 of RFC 4122 -----

  datatype Fields = Fields(timeLow: nat, timeMid: nat, timeHiVersion: nat,
                           clockSeqHiVariant: nat, clockSeqLow: nat, node: nat)

  /** `time_low`: the integer shifted right by 96 bits, which is bytes 0-3. */
  function TimeLow(u: Uuid): (r: nat)
    ensures r == BigEndian(u.value[0..4])
  {
    TimeLowBytes(u.value);
    Shr(IntVal(u), 96)
  }

  /** `time_mid`: 16 bits from bit 80, which is bytes 4-5. */
  function TimeMid(u: Uuid): (r: nat)
    ensures r == BigEndian(u.value[4..6])
  {
    TimeMidBytes(u.value);
    And(Shr(IntVal(u), 80), 0xffff)
  }

  /** `time_hi_version`: 16 bits from bit 64, which is bytes 6-7. */
  function TimeHiVersion(u: Uuid): (r: nat)
    ensures r == BigEndian(u.value[6..8])
  {
    TimeHiVersionBytes(u.value);
    And(Shr(IntVal(u), 64), 0xffff)
  }

  /** `clock_seq_hi_variant`: 8 bits from bit 56, which is byte 8. */
  function ClockSeqHiVariant(u: Uuid): (r: nat)
    ensures r == u.value[8] as nat
  {
    ClockSeqHiVariantBytes(u.value);
    And(Shr(IntVal(u), 56), 0xff)
  }

  /** `clock_seq_low`: 8 bits from bit 48, which is byte 9. */
  function ClockSeqLow(u: Uuid): (r: nat)
    ensures r == u.value[9] as nat
  {
    ClockSeqLowBytes(u.value);
    And(Shr(IntVal(u), 48), 0xff)
  }

  /** `node`: the low 48 bits, which is bytes 10-15. */
  function Node(u: Uuid): (r: nat)
    ensures r == BigEndian(u.value[10..16])
  {
    NodeBytes(u.value);
    And(IntVal(u), 0xffffffffffff)
  }

  /** `UUID.fields`: the six fields, which shifted back into place add up to the integer form. */
  function GetFields(u: Uuid): (r: Fields)
    ensures r.timeLow == BigEndian(u.value[0..4]) && r.timeMid == BigEndian(u.value[4..6])
    ensures r.timeHiVersion == BigEndian(u.value[6..8])
    ensures r.clockSeqHiVariant == u.value[8] as nat && r.clockSeqLow == u.value[9] as nat
    ensures r.node == BigEndian(u.value[10..16])
    ensures IntVal(u) == r.timeLow * 0x1_0000_0000_0000_0000_0000_0000
                       + r.timeMid * 0x1_0000_0000_0000_0000_0000
                       + r.timeHiVersion * 0x1_0000_0000_0000_0000
                       + r.clockSeqHiVariant * 0x100_0000_0000_0000
                       + r.clockSeqLow * 0x1_0000_0000_0000
                       + r.node
  {
    BytesRecompose(u.value);
    Fields(TimeLow(u), TimeMid(u), TimeHiVersion(u), ClockSeqHiVariant(u), ClockSeqLow(u), Node(u))
  }

  lemma TimeLowBytes(b: Bytes16)
    ensures Shr(BigEndian(b), 96) == BigEndian(b[0..4])
  {
    Pow2Values();
    BigEndianSlice(b, 0, 4);
  }

  lemma TimeMidBytes(b: Bytes16)
    ensures And(Shr(BigEndian(b), 80), 0xffff) == BigEndian(b[4..6])
  {
    Pow2Values();
    BigEndianSlice(b, 4, 6);
  }

  lemma TimeHiVersionBytes(b: Bytes16)
    ensures And(Shr(BigEndian(b), 64), 0xffff) == BigEndian(b[6..8])
  {
    Pow2Values();
    BigEndianSlice(b, 6, 8);
  }

  lemma ClockSeqHiVariantBytes(b: Bytes16)
    ensures And(Shr(BigEndian(b), 56), 0xff) == b[8] as nat
  {
    Pow2Values();
    BigEndianSlice(b, 8, 9);
    BigEndianOne(b[8..9]);
  }

  lemma ClockSeqLowBytes(b: Bytes16)
    ensures And(Shr(BigEndian(b), 48), 0xff) == b[9] as nat
  {
    Pow2Values();
    BigEndianSlice(b, 9, 10);
    BigEndianOne(b[9..10]);
  }

  lemma BigEndianOne(s: seq<byte>)
    requires |s| == 1
    ensures BigEndian(s) == s[0] as nat
  {
    assert s[..0] == [];
  }

  lemma NodeBytes(b: Bytes16)
    ensures And(BigEndian(b), 0xffffffffffff) == BigEndian(b[10..16])
  {
    Pow2Values();
    BigEndianSlice(b, 10, 16);
    assert Shr(BigEndian(b), 0) == BigEndian(b);
  }

  /**
   * The time field of section 4.1.4 of RFC 4122: the low 12 bits of
   * time_hi_version, then time_mid, then time_low. The three occupy disjoint
   * bit ranges of a 60-bit number, so each can be read back from it.
   */
  function Time(u: Uuid): (r: nat)
    ensures r == (TimeHiVersion(u) % 0x1000) * 0x1_0000_0000_0000 + TimeMid(u) * 0x1_0000_0000 + TimeLow(u)
    ensures r < 0x1000_0000_0000_0000
    ensures r % 0x1_0000_0000 == TimeLow(u)
    ensures (r / 0x1_0000_0000) % 0x1_0000 == TimeMid(u)
    ensures r / 0x1_0000_0000_0000 == TimeHiVersion(u) % 0x1000
  {
    Pow256Two();
    Pow256Four();
    TimeParts(TimeHiVersion(u), TimeMid(u), TimeLow(u));
    Or(Or(Shl(And(TimeHiVersion(u), 0x0fff), 48), Shl(TimeMid(u), 32)), TimeLow(u))
  }

  /**
   * The clock sequence of section 4.1.5 of RFC 4122: the low 6 bits of
   * clock_seq_hi_variant, then clock_seq_low, a 14-bit number whose two
   * parts can be read back from it.
   */
  function ClockSeq(u: Uuid): (r: nat)
    ensures r == (ClockSeqHiVariant(u) % 0x40) * 0x100 + ClockSeqLow(u)
    ensures r < 0x4000
    ensures r % 0x100 == ClockSeqLow(u)
    ensures r / 0x100 == ClockSeqHiVariant(u) % 0x40
  {
    ClockSeqParts(ClockSeqHiVariant(u), ClockSeqLow(u));
    Or(Shl(And(ClockSeqHiVariant(u), 0x3f), 8), ClockSeqLow(u))
  }

  /** The disjoint-or arithmetic behind `Time`, on plain numbers. */
  lemma TimeParts(hiVersion: nat, mid: nat, low: nat)
    requires mid < 0x1_0000 && low < 0x1_0000_0000
    ensures var t := Or(Or(Shl(And(hiVersion, 0x0fff), 48), Shl(mid, 32)), low);
      && t == (hiVersion % 0x1000) * 0x1_0000_0000_0000 + mid * 0x1_0000_0000 + low
      && t < 0x1000_0000_0000_0000
      && t % 0x1_0000_0000 == low
      && (t / 0x1_0000_0000) % 0x1_0000 == mid
      && t / 0x1_0000_0000_0000 == hiVersion % 0x1000
  {
    Pow2Values();
    var hi := hiVersion % 0x1000;
    AndLowMask(hiVersion, 12);
    assert And(hiVersion, 0x0fff) == hi;
    OrDisjoint(hi, mid * 0x1_0000_0000, 48);
    var upper := hi * 0x1_0000 + mid;
    assert Or(Shl(hi, 48), Shl(mid, 32)) == upper * Pow2(32);
    OrDisjoint(upper, low, 32);
    var t := upper * 0x1_0000_0000 + low;
    DivModUnique(t, 0x1_0000_0000, upper, low);
    DivModUnique(upper, 0x1_0000, hi, mid);
    DivModUnique(t, 0x1_0000_0000_0000, hi, mid * 0x1_0000_0000 + low);
  }

  /** The disjoint-or arithmetic behind `ClockSeq`, on plain numbers. */
  lemma ClockSeqParts(hiVariant: nat, low: nat)
    requires low < 0x100
    ensures var c := Or(Shl(And(hiVariant, 0x3f), 8), low);
      && c == (hiVariant % 0x40) * 0x100 + low
      && c < 0x4000
      && c % 0x100 == low
      && c / 0x100 == hiVariant % 0x40
  {
    Pow2Values();
    AndLowMask(hiVariant, 6);
    OrDisjoint(hiVariant % 0x40, low, 8);
    DivModUnique((hiVariant % 0x40) * 0x100 + low, 0x100, hiVariant % 0x40, low);
  }

  /** Sixteen bytes read big-endian, as the sum of the field-sized groups 4, 2, 2, 1, 1, 6. */
  lemma BytesRecompose(b: seq<byte>)
    requires |b| == 16
    ensures BigEndian(b) == BigEndian(b[0..4]) * 0x1_0000_0000_0000_0000_0000_0000
                          + BigEndian(b[4..6]) * 0x1_0000_0000_0000_0000_0000
                          + BigEndian(b[6..8]) * 0x1_0000_0000_0000_0000
                          + b[8] as nat * 0x100_0000_0000_0000
                          + b[9] as nat * 0x1_0000_0000_0000
                          + BigEndian(b[10..16])
  {
    SplitNode(b);
    HeadOfBytes(b);
    ShiftHead(BigEndian(b[..10]), BigEndian(b[0..4]), BigEndian(b[4..6]), BigEndian(b[6..8]),
              b[8] as nat, b[9] as nat, BigEndian(b[10..16]), BigEndian(b));
  }

  /** The node is the last six bytes. */
  lemma SplitNode(b: seq<byte>)
    requires |b| == 16
    ensures BigEndian(b) == BigEndian(b[..10]) * 0x1_0000_0000_0000 + BigEndian(b[10..16])
  {
    SplitLastSix(b);
    assert b[|b| - 6..] == b[10..16];
  }

  /** The last six bytes split off: the rest shifted by 48 bits, plus those six. */
  lemma SplitLastSix(s: seq<byte>)
    requires |s| >= 6
    ensures BigEndian(s) == BigEndian(s[..|s| - 6]) * 0x1_0000_0000_0000 + BigEndian(s[|s| - 6..])
  {
    SplitAt(s, |s| - 6);
    Pow256Six();
  }

  lemma Pow256Two()
    ensures Pow256(2) == 0x1_0000
  {
  }

  lemma Pow256Four()
    ensures Pow256(4) == 0x1_0000_0000
  {
  }

  lemma Pow256Six()
    ensures Pow256(6) == 0x1_0000_0000_0000
  {
    Pow256Add(2, 4);
    assert Pow256(4) == 0x1_0000_0000;
  }

  /** `HeadRecompose` for the first ten of sixteen bytes. */
  lemma HeadOfBytes(b: seq<byte>)
    requires |b| == 16
    ensures BigEndian(b[..10]) == BigEndian(b[0..4]) * 0x1_0000_0000_0000
                                + BigEndian(b[4..6]) * 0x1_0000_0000
                                + BigEndian(b[6..8]) * 0x1_0000
                                + b[8] as nat * 0x100
                                + b[9] as nat
  {
    var head := b[..10];
    HeadRecompose(head);
    assert head[0..4] == b[0..4] && head[4..6] == b[4..6] && head[6..8] == b[6..8];
    assert head[8] == b[8] && head[9] == b[9];
  }

  /** Shifting the first ten bytes left by six bytes shifts each of their groups. */
  lemma ShiftHead(head: nat, a: nat, c: nat, d: nat, x: nat, y: nat, node: nat, total: nat)
    requires head == a * 0x1_0000_0000_0000 + c * 0x1_0000_0000 + d * 0x1_0000 + x * 0x100 + y
    requires total == head * 0x1_0000_0000_0000 + node
    ensures total == a * 0x1_0000_0000_0000_0000_0000_0000 + c * 0x1_0000_0000_0000_0000_0000
                   + d * 0x1_0000_0000_0000_0000 + x * 0x100_0000_0000_0000 + y * 0x1_0000_0000_0000 + node
  {
  }

  /** The first ten bytes: time_low, time_mid, time_hi_version and the two clock-sequence bytes. */
  lemma HeadRecompose(p: seq<byte>)
    requires |p| == 10
    ensures BigEndian(p) == BigEndian(p[0..4]) * 0x1_0000_0000_0000
                          + BigEndian(p[4..6]) * 0x1_0000_0000
                          + BigEndian(p[6..8]) * 0x1_0000
                          + p[8] as nat * 0x100
                          + p[9] as nat
  {
    var q := p[..8];
    var r := q[..6];
    var a, c, d := BigEndian(p[0..4]), BigEndian(p[4..6]), BigEndian(p[6..8]);
    assert BigEndian(r) == a * 0x1_0000 + c by {
      SplitLastTwo(r);
      assert r[..4] == p[0..4] && r[4..] == p[4..6];
    }
    assert BigEndian(q) == BigEndian(r) * 0x1_0000 + d by {
      SplitLastTwo(q);
      assert q[..6] == r && q[6..] == p[6..8];
    }
    assert BigEndian(p) == BigEndian(q) * 0x1_0000 + p[8] as nat * 0x100 + p[9] as nat by {
      SplitLastTwo(p);
      BigEndianPair(p[8], p[9]);
      assert p[8..] == [p[8], p[9]];
    }
  }

  /** The last two bytes split off: the rest shifted by 16 bits, plus those two. */
  lemma SplitLastTwo(s: seq<byte>)
    requires |s| >= 2
    ensures BigEndian(s) == BigEndian(s[..|s| - 2]) * 0x1_0000 + BigEndian(s[|s| - 2..])
  {
    SplitAt(s, |s| - 2);
    Pow256Two();
  }

  lemma SplitAt(s: seq<byte>, i: nat)
    requires i <= |s|
    ensures BigEndian(s) == BigEndian(s[..i]) * Pow256(|s| - i) + BigEndian(s[i..])
  {
    assert s == s[..i] + s[i..];
    BigEndianConcat(s[..i], s[i..]);
  }

  // ----- the values the unit tests check -----

  lemma BigEndianPair(x: byte, y: byte)
    ensures BigEndian([x, y]) == x as nat * 0x100 + y as nat
  {
    assert [x, y][..1] == [x];
    assert [x][..0] == [];
  }

  lemma BigEndianQuad(w: byte, x: byte, y: byte, z: byte)
    ensures BigEndian([w, x, y, z]) == w as nat * 0x100_0000 + x as nat * 0x1_0000 + y as nat * 0x100 + z as nat
  {
    BigEndianPair(w, x);
    BigEndianPair(y, z);
    BigEndianConcat([w, x], [y, z]);
    assert [w, x] + [y, z] == [w, x, y, z];
    assert Pow256(2) == 0x1_0000;
  }

  lemma BigEndianSix(s: seq<byte>)
    requires |s| == 6
    ensures BigEndian(s) == s[0] as nat * 0x100_0000_0000 + s[1] as nat * 0x1_0000_0000 + s[2] as nat * 0x100_0000
                          + s[3] as nat * 0x1_0000 + s[4] as nat * 0x100 + s[5] as nat
  {
    var front, back := [s[0], s[1]], [s[2], s[3], s[4], s[5]];
    assert s == front + back;
    BigEndianPair(s[0], s[1]);
    BigEndianQuad(s[2], s[3], s[4], s[5]);
    BigEndianConcat(front, back);
    assert Pow256(4) == 0x1_0000_0000;
  }

  /** The bytes 12 34 56 78 repeated four times: the value the unit tests use. */
  predicate IsExample(u: Uuid) {
    IsExampleBytes(u.value)
  }

  predicate IsExampleBytes(b: seq<byte>) {
    |b| == 16 && forall i | 0 <= i < 16 :: b[i] == [0x12, 0x34, 0x56, 0x78][i % 4]
  }

  /** The byte groups of the example value, read big-endian. */
  lemma ExampleGroups(b: seq<byte>)
    requires IsExampleBytes(b)
    ensures BigEndian(b[0..4]) == 305419896
    ensures BigEndian(b[4..6]) == 4660
    ensures BigEndian(b[6..8]) == 22136
    ensures b[8] == 0x12 && b[9] == 0x34
    ensures BigEndian(b[10..16]) == 95073701484152
  {
    assert b[0] == b[4] == b[8] == b[12] == 0x12 && b[1] == b[5] == b[9] == b[13] == 0x34;
    assert b[2] == b[6] == b[10] == b[14] == 0x56 && b[3] == b[7] == b[11] == b[15] == 0x78;
    assert BigEndian(b[0..4]) == 305419896 by {
      assert b[0..4] == [b[0], b[1], b[2], b[3]];
      BigEndianQuad(b[0], b[1], b[2], b[3]);
    }
    assert BigEndian(b[4..6]) == 4660 by {
      assert b[4..6] == [b[4], b[5]];
      BigEndianPair(b[4], b[5]);
    }
    assert BigEndian(b[6..8]) == 22136 by {
      assert b[6..8] == [b[6], b[7]];
      BigEndianPair(b[6], b[7]);
    }
    assert BigEndian(b[10..16]) == 95073701484152 by {
      var n := b[10..16];
      BigEndianSix(n);
      assert n[0] == 0x56 && n[1] == 0x78 && n[2] == 0x12 && n[3] == 0x34 && n[4] == 0x56 && n[5] == 0x78;
    }
  }

  /** The six fields of the example value, as `UUID.fields` reports them. */
  lemma ExampleFields(u: Uuid)
    requires IsExample(u)
    ensures GetFields(u) == Fields(305419896, 4660, 22136, 18, 52, 95073701484152)
  {
    ExampleGroups(u.value);
  }

  /** The integer form of the example value. */
  lemma ExampleInt(u: Uuid)
    requires IsExample(u)
    ensures IntVal(u) == 24197857161011715162171839636988778104
  {
    ExampleFields(u);
  }

  /** The 60-bit time of the example value. */
  lemma ExampleTime(u: Uuid)
    requires IsExample(u)
    ensures Time(u) == 466142576285865592
  {
    ExampleFields(u);
    assert 22136 % 0x1000 == 1656 by {
      DivModUnique(22136, 0x1000, 5, 1656);
    }
  }

  /** The 14-bit clock sequence of the example value. */
  lemma ExampleClockSeq(u: Uuid)
    requires IsExample(u)
    ensures ClockSeq(u) == 4660
  {
    ExampleFields(u);
    assert 18 % 0x40 == 18 by {
      DivModUnique(18, 0x40, 0, 18);
    }
  }

  /** The digits of the example bytes. */
  lemma ExampleByteHex(b: seq<byte>)
    requires IsExampleBytes(b)
    ensures ByteHex(b) == "12345678123456781234567812345678"
  {
    ExampleBlocks(b);
    ByteHexFourBlocks([0x12, 0x34, 0x56, 0x78], b);
    ExampleBlockHex();
  }

  lemma ByteHexFourBlocks(q: seq<byte>, b: seq<byte>)
    requires b == q + q + q + q
    ensures ByteHex(b) == ByteHex(q) + ByteHex(q) + ByteHex(q) + ByteHex(q)
  {
    ByteHexConcat(q, q);
    ByteHexConcat(q + q, q);
    ByteHexConcat(q + q + q, q);
  }

  /** The example bytes are one four-byte block, four times. */
  lemma ExampleBlocks(b: seq<byte>)
    requires IsExampleBytes(b)
    ensures b == [0x12, 0x34, 0x56, 0x78] + [0x12, 0x34, 0x56, 0x78] + [0x12, 0x34, 0x56, 0x78] + [0x12, 0x34, 0x56, 0x78]
  {
    var q: seq<byte> := [0x12, 0x34, 0x56, 0x78];
    forall i | 0 <= i < 16 ensures b[i] == (q + q + q + q)[i] {
      assert b[i] == q[i % 4];
    }
  }

  lemma ExampleBlockHex()
    ensures ByteHex([0x12, 0x34, 0x56, 0x78]) == "12345678"
  {
    ByteHexFour(0x12, 0x34, 0x56, 0x78);
    ExampleDigits();
  }

  /** The digits of four bytes. */
  lemma ByteHexFour(w: byte, x: byte, y: byte, z: byte)
    ensures ByteHex([w, x, y, z]) == [Digit(w as nat / 16), Digit(w as nat % 16), Digit(x as nat / 16), Digit(x as nat % 16),
                                      Digit(y as nat / 16), Digit(y as nat % 16), Digit(z as nat / 16), Digit(z as nat % 16)]
  {
    var s: seq<byte> := [w, x, y, z];
    var r := ByteHex(s);
    assert r[0] == Digit(s[0] as nat / 16) && r[1] == Digit(s[0] as nat % 16);
    assert r[2] == Digit(s[1] as nat / 16) && r[3] == Digit(s[1] as nat % 16);
    assert r[4] == Digit(s[2] as nat / 16) && r[5] == Digit(s[2] as nat % 16);
    assert r[6] == Digit(s[3] as nat / 16) && r[7] == Digit(s[3] as nat % 16);
  }

  lemma ExampleDigits()
    ensures [Digit(0x12 / 16), Digit(0x12 % 16), Digit(0x34 / 16), Digit(0x34 % 16),
             Digit(0x56 / 16), Digit(0x56 % 16), Digit(0x78 / 16), Digit(0x78 % 16)] == "12345678"
  {
  }

  lemma ByteHexOne(x: byte)
    ensures ByteHex([x]) == [Digit(x as nat / 16), Digit(x as nat % 16)]
  {
    assert [x][..0] == [];
  }

  /** The digits of two byte strings side by side. */
  lemma {:induction false} ByteHexConcat(a: seq<byte>, c: seq<byte>)
    ensures ByteHex(a + c) == ByteHex(a) + ByteHex(c)
    decreases |c|
  {
    if c != [] {
      var c' := c[..|c| - 1];
      assert (a + c)[..|a + c| - 1] == a + c';
      assert (a + c)[|a + c| - 1] == c[|c| - 1];
      ByteHexConcat(a, c');
    } else {
      assert a + c == a;
    }
  }

  /** The hex form of the example value. */
  lemma ExampleHex(u: Uuid)
    requires IsExample(u)
    ensures Hex(u) == "12345678123456781234567812345678"
  {
    HexIsBytesInOrder(u);
    ExampleByteHex(u.value);
  }

  /** The string form of the example value. */
  lemma ExampleStr(u: Uuid)
    requires IsExample(u)
    ensures Str(u) == "12345678-1234-5678-1234-567812345678"
  {
    var x, y := "1234", "5678";
    AlternatingLiterals(x, y);
    GroupedLiterals(x, y);
    ExampleHex(u);
    HyphenateAlternating(x, y, Hex(u));
  }

  /** The `repr` of the example value. */
  lemma ExampleRepr(u: Uuid)
    requires IsExample(u)
    ensures Repr(u) == "UUID('12345678-1234-5678-1234-567812345678')"
  {
    ExampleStr(u);
    ReprLiteral(Str(u));
  }

  lemma AlternatingLiterals(x: string, y: string)
    requires x == "1234" && y == "5678"
    ensures x + y + x + y + x + y + x + y == "12345678123456781234567812345678"
  {
  }

  lemma GroupedLiterals(x: string, y: string)
    requires x == "1234" && y == "5678"
    ensures x + y + "-" + x + "-" + y + "-" + x + "-" + y + x + y == "12345678-1234-5678-1234-567812345678"
  {
  }

  lemma ReprLiteral(s: string)
    requires s == "12345678-1234-5678-1234-567812345678"
    ensures "UUID('" + s + "')" == "UUID('12345678-1234-5678-1234-567812345678')"
  {
  }

  /** The grouping of two alternating four-digit blocks. */
  lemma HyphenateAlternating(x: string, y: string, h: string)
    requires |x| == 4 && |y| == 4 && h == x + y + x + y + x + y + x + y
    ensures Hyphenate(h) == x + y + "-" + x + "-" + y + "-" + x + "-" + y + x + y
  {
    assert h[..8] == x + y;
    assert h[8..12] == x && h[12..16] == y && h[16..20] == x;
    assert h[20..] == y + x + y;
  }

  /** The little-endian bytes of the example value. */
  lemma ExampleBytesLe(u: Uuid)
    requires IsExample(u)
    ensures BytesLe(u) == [0x78, 0x56, 0x34, 0x12, 0x34, 0x12, 0x78, 0x56,
                           0x12, 0x34, 0x56, 0x78, 0x12, 0x34, 0x56, 0x78]
  {
    ExampleSwap(u.value);
  }

  lemma ExampleSwap(b: Bytes16)
    requires IsExampleBytes(b)
    ensures SwapFirstFields(b) == [0x78, 0x56, 0x34, 0x12, 0x34, 0x12, 0x78, 0x56,
                                   0x12, 0x34, 0x56, 0x78, 0x12, 0x34, 0x56, 0x78]
  {
    assert b[0] == b[4] == b[8] == b[12] == 0x12 && b[1] == b[5] == b[9] == b[13] == 0x34;
    assert b[2] == b[6] == b[10] == b[14] == 0x56 && b[3] == b[7] == b[11] == b[15] == 0x78;
  }

  // ----- equality -----

  /** Two UUIDs are equal exactly when their integer forms, or their hex forms, are equal. */
  lemma Equality(a: Uuid, b: Uuid)
    ensures a == b <==> IntVal(a) == IntVal(b)
    ensures a == b <==> Hex(a) == Hex(b)
  {
    IntValInjective(a, b);
    HexInjective(a, b);
  }

  lemma IntValInjective(a: Uuid, b: Uuid)
    ensures a == b <==> IntVal(a) == IntVal(b)
  {
    BigEndianInjective(a.value, b.value);
  }

  /** Reading the hex form back gives the integer form. */
  lemma HexValueOfHex(u: Uuid)
    ensures forall i :: 0 <= i < |Hex(u)| ==> IsHexDigit(Hex(u)[i])
    ensures HexValue(Hex(u)) == IntVal(u)
  {
    HexValueOfBigEndian(u.value);
  }

  lemma HexValueOfBigEndian(s: seq<byte>)
    ensures forall i :: 0 <= i < 2 * |s| ==> IsHexDigit(HexDigits(BigEndian(s), 2 * |s|)[i])
    ensures HexValue(HexDigits(BigEndian(s), 2 * |s|)) == BigEndian(s)
  {
    Pow256IsPow16(|s|);
    HexValueOfHexDigits(BigEndian(s), 2 * |s|);
  }

  lemma HexInjective(a: Uuid, b: Uuid)
    ensures a == b <==> Hex(a) == Hex(b)
  {
    if Hex(a) == Hex(b) {
      HexValueOfHex(a);
      HexValueOfHex(b);
      IntValInjective(a, b);
    }
  }
}
