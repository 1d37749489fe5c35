/**
 * Machine integers, bytes and 8-bit characters as the C++ sources use them,
 * together with the big-endian fold that every wire decoder is built on.
 *
 * Integers are unbounded in Dafny; the fixed widths of the source are subset
 * types here, and the places where the source relies on unsigned wrap-around
 * or on C++'s truncating division call the explicit helpers below.
 */
module FixedWidth {

  type byte = x: int | 0 <= x < 0x100
  type u16 = x: int | 0 <= x < 0x1_0000
  type u32 = x: int | 0 <= x < 0x1_0000_0000
  type u48 = x: int | 0 <= x < 0x1_0000_0000_0000
  type u64 = x: int | 0 <= x < 0x1_0000_0000_0000_0000
  /** A C++ `int64_t`. */
  type i64 = x: int | -0x8000_0000_0000_0000 <= x < 0x8000_0000_0000_0000

  /** A C++ `char`: one byte, read as a character. */
  type char8 = c: char | c as int < 0x100 witness ' '

  const TWO_32: nat := 0x1_0000_0000
  const TWO_64: nat := 0x1_0000_0000_0000_0000

  function Abs(x: int): int
  {
    if x < 0 then -x else x
  }

  /** `uint32_t` addition and subtraction, which wrap modulo 2^32. */
  function Add32(a: u32, b: u32): (r: u32)
    ensures a + b < TWO_32 ==> r == a + b
    ensures a + b >= TWO_32 ==> r == a + b - TWO_32
  {
    (a + b) % TWO_32
  }

  function Sub32(a: u32, b: u32): (r: u32)
    ensures b <= a ==> r == a - b
    ensures b > a ==> r == a - b + TWO_32
  {
    (a - b) % TWO_32
  }

  /** `uint64_t` addition, which wraps modulo 2^64. */
  function Add64(a: u64, b: u64): (r: u64)
    ensures a + b < TWO_64 ==> r == a + b
    ensures a + b >= TWO_64 ==> r == a + b - TWO_64
  {
    (a + b) % TWO_64
  }

  /**
   * C++ integer division and remainder: the quotient is truncated toward
   * zero and the remainder takes the sign of the dividend.
   */
  function TruncDiv(a: int, b: int): int
    requires b != 0
  {
    if a >= 0 then (if b > 0 then a / b else -(a / -b))
    else (if b > 0 then -((-a) / b) else (-a) / (-b))
  }

  function TruncRem(a: int, b: int): (r: int)
    requires b != 0
    ensures a == TruncDiv(a, b) * b + r
    ensures a >= 0 ==> 0 <= r < (if b > 0 then b else -b)
    ensures a < 0 ==> 0 < -r + (if b > 0 then b else -b) && r <= 0
  {
    a - TruncDiv(a, b) * b
  }

  function Pow256(n: nat): (r: nat)
    ensures r > 0
  {
    if n == 0 then 1 else 0x100 * Pow256(n - 1)
  }

  lemma Pow256Widths()
    ensures Pow256(1) == 0x100 && Pow256(2) == 0x1_0000
    ensures Pow256(4) == 0x1_0000_0000
    ensures Pow256(6) == 0x1_0000_0000_0000
    ensures Pow256(8) == 0x1_0000_0000_0000_0000
  {
    assert Pow256(1) == 0x100;
    assert Pow256(2) == 0x1_0000;
    assert Pow256(4) == 0x100 * (0x100 * Pow256(2));
    assert Pow256(6) == 0x100 * (0x100 * Pow256(4));
    assert Pow256(8) == 0x100 * (0x100 * Pow256(6));
  }

  /**
   * The unsigned value of `s` read most significant byte first; this is
   * what the decoders' byte-swapping reads compute.
   */
  function BE(s: seq<byte>): (v: nat)
    ensures v < Pow256(|s|)
  {
    if |s| == 0 then 0 else BE(s[..|s| - 1]) * 0x100 + s[|s| - 1]
  }

  /** The low `n` bytes of `v`, most significant first. */
  function ToBE(v: nat, n: nat): (s: seq<byte>)
    ensures |s| == n
  {
    if n == 0 then [] else ToBE(v / 0x100, n - 1) + [v % 0x100]
  }

  lemma {:induction false} BEOfToBE(v: nat, n: nat)
    ensures BE(ToBE(v, n)) == v % Pow256(n)
  {
    if n > 0 {
      var s := ToBE(v, n);
      assert s[..n - 1] == ToBE(v / 0x100, n - 1);
      BEOfToBE(v / 0x100, n - 1);
      DivModStep(v, Pow256(n - 1));
    }
  }

  lemma DivModStep(v: nat, p: nat)
    requires p > 0
    ensures ((v / 0x100) % p) * 0x100 + v % 0x100 == v % (0x100 * p)
  {
    var q := v / 0x100;
    var r := v % 0x100;
    assert v == q * 0x100 + r;
    var q2 := q / p;
    var r2 := q % p;
    assert q == q2 * p + r2;
    assert v == q2 * (0x100 * p) + (r2 * 0x100 + r);
    assert 0 <= r2 * 0x100 + r < 0x100 * p;
    ModUnique(v, 0x100 * p, q2, r2 * 0x100 + r);
  }

  lemma ModUnique(v: int, m: int, q: int, r: int)
    requires m > 0 && 0 <= r < m && v == q * m + r
    ensures v % m == r
  {
    var q', r' := v / m, v % m;
    assert v == q' * m + r';
    assert (q - q') * m == r' - r;
    if q - q' >= 1 {
      MulAtLeast(q - q', m);
    } else if q' - q >= 1 {
      MulAtLeast(q' - q, m);
    }
  }

  lemma MulAtLeast(k: int, m: int)
    requires k >= 1 && m > 0
    ensures k * m >= m
  {
  }

  lemma {:induction false} ToBEOfBE(s: seq<byte>)
    ensures ToBE(BE(s), |s|) == s
  {
    if |s| > 0 {
      var init := s[..|s| - 1];
      var v := BE(s);
      assert v / 0x100 == BE(init);
      assert v % 0x100 == s[|s| - 1];
      ToBEOfBE(init);
      assert s == init + [s[|s| - 1]];
    }
  }

  /** Round trip for a value that fits in `n` bytes. */
  lemma BERoundTrip(v: nat, n: nat)
    requires v < Pow256(n)
    ensures BE(ToBE(v, n)) == v
  {
    BEOfToBE(v, n);
  }

  /** Consecutive slices join up. */
  lemma PrefixExtend(s: seq<byte>, j: nat, k: nat)
    requires j <= k <= |s|
    ensures s[..j] + s[j..k] == s[..k]
  {
  }

  /** The bytes as C++ `char`s (a `memcpy` into a `char` array) and back. */
  function Chars(s: seq<byte>): (r: seq<char8>)
    ensures |r| == |s|
    ensures forall i :: 0 <= i < |s| ==> r[i] as int == s[i]
  {
    seq(|s|, i requires 0 <= i < |s| => s[i] as char)
  }

  function Bytes(s: seq<char8>): (r: seq<byte>)
    ensures |r| == |s|
    ensures forall i :: 0 <= i < |s| ==> r[i] == s[i] as int
  {
    seq(|s|, i requires 0 <= i < |s| => s[i] as int)
  }

  lemma CharsOfBytes(s: seq<char8>)
    ensures Chars(Bytes(s)) == s
  {
    var t := Chars(Bytes(s));
    assert forall i :: 0 <= i < |s| ==> t[i] == s[i] by {
      forall i | 0 <= i < |s| ensures t[i] == s[i] {
        assert t[i] as int == s[i] as int;
      }
    }
  }

  lemma BytesOfChars(s: seq<byte>)
    ensures Bytes(Chars(s)) == s
  {
  }
}
