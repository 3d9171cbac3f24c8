/**
 * Python integer arithmetic the UUID accessors use: powers of two, shifts,
 * `&` and `|` on non-negative integers, and big- and little-endian byte
 * strings.
 */
module Bits {
  import opened Common

  function Pow2(n: nat): (r: nat)
    ensures r >= 1
  {
    if n == 0 then 1 else 2 * Pow2(n - 1)
  }

  /** 256 to the power `n`, the weight of a byte `n` places from the end. */
  function Pow256(n: nat): (r: nat)
    ensures r >= 1
  {
    if n == 0 then 1 else 256 * Pow256(n - 1)
  }

  /** Python's `x << n`. */
  function Shl(x: nat, n: nat): nat {
    x * Pow2(n)
  }

  /** Python's `x >> n`. */
  function Shr(x: nat, n: nat): nat {
    var p := Pow2(n);
    QuotientIsNat(x, p);
    x / p
  }

  lemma QuotientIsNat(x: nat, d: int)
    requires d > 0
    ensures x / d >= 0
  {
  }

  /** Python's `x & y`, bit by bit from the least significant. */
  function And(x: nat, y: nat): nat
    decreases x
  {
    if x == 0 || y == 0 then 0
    else 2 * And(x / 2, y / 2) + (if x % 2 == 1 && y % 2 == 1 then 1 else 0)
  }

  /** Python's `x | y`, bit by bit from the least significant. */
  function Or(x: nat, y: nat): nat
    decreases x
  {
    if x == 0 then y
    else if y == 0 then x
    else 2 * Or(x / 2, y / 2) + (if x % 2 == 1 || y % 2 == 1 then 1 else 0)
  }

  // ----- division facts -----

  /** Euclidean division is determined by its defining equation. */
  lemma DivModUnique(x: int, d: int, q: int, r: int)
    requires d > 0 && 0 <= r < d && x == q * d + r
    ensures x / d == q && x % d == r
  {
    var q', r' := x / d, x % d;
    assert (q - q') * d == r' - r;
    MultipleBound(q - q', d);
  }

  lemma {:induction false} MultipleGrows(a: nat, d: int)
    requires a > 0 && d > 0
    ensures a * d >= d
  {
    if a > 1 {
      MultipleGrows(a - 1, d);
      assert a * d == (a - 1) * d + d;
    }
  }

  /** A non-zero multiple of `d` is at least `d` away from zero. */
  lemma MultipleBound(a: int, d: int)
    requires d > 0
    ensures a == 0 || a * d >= d || a * d <= -d
  {
    if a > 0 {
      MultipleGrows(a, d);
    } else if a < 0 {
      MultipleGrows(-a, d);
      assert a * d == -((-a) * d);
    }
  }

  lemma Pow2Add(a: nat, b: nat)
    ensures Pow2(a + b) == Pow2(a) * Pow2(b)
  {
    if a > 0 {
      Pow2Add(a - 1, b);
    }
  }

  /** A byte place is eight bit places. */
  lemma {:induction false} Pow256IsPow2(n: nat)
    ensures Pow256(n) == Pow2(8 * n)
  {
    if n > 0 {
      Pow256IsPow2(n - 1);
      Pow2Add(8, 8 * (n - 1));
      assert 8 * n == 8 + 8 * (n - 1);
    }
  }

  lemma Pow256Add(a: nat, b: nat)
    ensures Pow256(a + b) == Pow256(a) * Pow256(b)
  {
    if a > 0 {
      Pow256Add(a - 1, b);
    }
  }

  // ----- masks and disjoint or -----

  /** Masking with `2^k - 1` keeps the low `k` bits: `x & (2^k - 1) == x % 2^k`. */
  lemma {:induction false} AndLowMask(x: nat, k: nat)
    ensures And(x, Pow2(k) - 1) == x % Pow2(k)
    decreases k
  {
    if k == 0 {
      assert Pow2(k) - 1 == 0;
      assert x % 1 == 0;
    } else if x == 0 {
      assert 0 % Pow2(k) == 0;
    } else {
      var p := Pow2(k - 1);
      var m := Pow2(k) - 1;
      assert Pow2(k) == 2 * p;
      OddHalf(p);
      AndLowMask(x / 2, k - 1);
      assert And(x / 2, m / 2) == (x / 2) % p;
      assert And(x, m) == 2 * And(x / 2, m / 2) + (if x % 2 == 1 then 1 else 0);
      ModOfDouble(x, p);
    }
  }

  /** `2p - 1` is odd and halves to `p - 1`. */
  lemma OddHalf(p: nat)
    requires p >= 1
    ensures (2 * p - 1) % 2 == 1 && (2 * p - 1) / 2 == p - 1
  {
    DivModUnique(2 * p - 1, 2, p - 1, 1);
  }

  /** The remainder by `2p` from the remainder of the half by `p`. */
  lemma ModOfDouble(x: nat, p: nat)
    requires p >= 1
    ensures x % (2 * p) == 2 * ((x / 2) % p) + x % 2
  {
    var h, b := x / 2, x % 2;
    var u, t := h / p, h % p;
    assert h == u * p + t;
    assert x == 2 * h + b;
    assert x == u * (2 * p) + (2 * t + b);
    DivModUnique(x, 2 * p, u, 2 * t + b);
  }

  /** Or of a multiple of `2^k` and a number below `2^k` is their sum. */
  lemma {:induction false} OrDisjoint(q: nat, y: nat, k: nat)
    requires y < Pow2(k)
    ensures Or(q * Pow2(k), y) == q * Pow2(k) + y
    decreases k
  {
    var x := q * Pow2(k);
    if k > 0 && x != 0 && y != 0 {
      var p := Pow2(k - 1);
      assert x == (q * p) * 2;
      DivModUnique(x, 2, q * p, 0);
      DivModUnique(y, 2, y / 2, y % 2);
      OrDisjoint(q, y / 2, k - 1);
    }
  }

  // ----- big-endian byte strings -----

  /** The integer a byte string denotes, most significant byte first. */
  function BigEndian(s: seq<byte>): (r: nat)
    ensures r < Pow256(|s|)
  {
    if s == [] then 0 else BigEndian(s[..|s| - 1]) * 256 + s[|s| - 1] as nat
  }

  /** The `len`-byte big-endian form of `n`, keeping its low `len` bytes. */
  function ToBigEndian(n: nat, len: nat): (r: seq<byte>)
    ensures |r| == len
  {
    if len == 0 then [] else ToBigEndian(n / 256, len - 1) + [(n % 256) as byte]
  }

  /** Decoding what was encoded gives the number back, when it fits. */
  lemma {:induction false} BigEndianOfToBigEndian(n: nat, len: nat)
    requires n < Pow256(len)
    ensures BigEndian(ToBigEndian(n, len)) == n
  {
    if len > 0 {
      var s := ToBigEndian(n, len);
      var q, r := n / 256, n % 256;
      assert s[..len - 1] == ToBigEndian(q, len - 1) && s[len - 1] as nat == r;
      assert q < Pow256(len - 1) by {
        assert Pow256(len) == 256 * Pow256(len - 1);
      }
      BigEndianOfToBigEndian(q, len - 1);
    }
  }

  /** Encoding what was decoded gives the bytes back. */
  lemma {:induction false} ToBigEndianOfBigEndian(s: seq<byte>)
    ensures ToBigEndian(BigEndian(s), |s|) == s
  {
    if s != [] {
      var init := s[..|s| - 1];
      DivModUnique(BigEndian(s), 256, BigEndian(init), s[|s| - 1] as nat);
      ToBigEndianOfBigEndian(init);
    }
  }

  /** Byte strings of one length denote the same number only when equal. */
  lemma BigEndianInjective(a: seq<byte>, b: seq<byte>)
    requires |a| == |b|
    ensures BigEndian(a) == BigEndian(b) <==> a == b
  {
    ToBigEndianOfBigEndian(a);
    ToBigEndianOfBigEndian(b);
  }

  /** The value of a concatenation: the head shifted by the tail's length, plus the tail. */
  lemma {:induction false} BigEndianConcat(a: seq<byte>, b: seq<byte>)
    ensures BigEndian(a + b) == BigEndian(a) * Pow256(|b|) + BigEndian(b)
    decreases |b|
  {
    if b != [] {
      var init := b[..|b| - 1];
      assert (a + b)[..|a + b| - 1] == a + init;
      BigEndianConcat(a, init);
      assert BigEndian(a + b) == BigEndian(a + init) * 256 + b[|b| - 1] as nat;
      assert BigEndian(b) == BigEndian(init) * 256 + b[|b| - 1] as nat;
      Distribute(BigEndian(a), Pow256(|init|), BigEndian(init), b[|b| - 1] as nat);
    } else {
      assert a + b == a;
    }
  }

  lemma Distribute(x: nat, p: nat, y: nat, c: nat)
    ensures (x * p + y) * 256 + c == x * (256 * p) + (y * 256 + c)
  {
  }

  /**
   * Bytes `i` to `j` of `s`, read out of its number the way Python does:
   * shift the bytes after `j` away, then mask to `j - i` bytes.
   */
  lemma BigEndianSlice(s: seq<byte>, i: nat, j: nat)
    requires i <= j <= |s|
    ensures And(Shr(BigEndian(s), 8 * (|s| - j)), Pow2(8 * (j - i)) - 1) == BigEndian(s[i..j])
    ensures i == 0 ==> Shr(BigEndian(s), 8 * (|s| - j)) == BigEndian(s[..j])
  {
    ShrDropsTail(s, j);
    MaskKeepsTail(s[..j], i);
    assert s[..j][i..] == s[i..j];
    if i == 0 {
      assert s[..j] == s[i..j];
    }
  }

  /** Shifting right by the bytes after position `j` leaves the first `j` bytes. */
  lemma ShrDropsTail(s: seq<byte>, j: nat)
    requires j <= |s|
    ensures Shr(BigEndian(s), 8 * (|s| - j)) == BigEndian(s[..j])
  {
    assert s == s[..j] + s[j..];
    BigEndianConcat(s[..j], s[j..]);
    Pow256IsPow2(|s| - j);
    DivModUnique(BigEndian(s), Pow256(|s| - j), BigEndian(s[..j]), BigEndian(s[j..]));
  }

  /** Masking with the width of the bytes from position `i` keeps those bytes. */
  lemma MaskKeepsTail(p: seq<byte>, i: nat)
    requires i <= |p|
    ensures And(BigEndian(p), Pow2(8 * (|p| - i)) - 1) == BigEndian(p[i..])
  {
    assert p == p[..i] + p[i..];
    BigEndianConcat(p[..i], p[i..]);
    Pow256IsPow2(|p| - i);
    DivModUnique(BigEndian(p), Pow256(|p| - i), BigEndian(p[..i]), BigEndian(p[i..]));
    AndLowMask(BigEndian(p), 8 * (|p| - i));
  }

  // ----- little-endian byte strings -----

  /** The integer a byte string denotes, least significant byte first. */
  function LittleEndian(s: seq<byte>): nat {
    if s == [] then 0 else s[0] as nat + 256 * LittleEndian(s[1..])
  }

  /** Reversing the bytes turns the big-endian reading into the little-endian one. */
  lemma {:induction false} LittleEndianOfReversed(s: seq<byte>)
    ensures LittleEndian(Reversed(s)) == BigEndian(s)
  {
    if s != [] {
      var init := s[..|s| - 1];
      assert Reversed(s)[1..] == Reversed(init);
      LittleEndianOfReversed(init);
    }
  }
}
