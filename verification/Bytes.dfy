/** Numbers as bytes: truncating casts and the big-endian fields of the packets. */
module Bytes {

  /** `unsigned int` and addresses are 32 bits wide. */
  const ADDRESS_SPACE := 0x1_0000_0000

  function Zeros(n: nat): (s: seq<bv8>)
    ensures |s| == n && forall i | 0 <= i < n :: s[i] == 0
  {
    seq(n, _ => 0)
  }

  function ToByte(n: int): bv8
    requires 0 <= n < 256
  {
    n as bv8
  }

  function FromByte(b: bv8): (n: int)
    ensures 0 <= n < 256
  {
    b as int
  }

  /** A value below 256 survives the cast to a byte. The proof counts up to the byte,
      because the solver cannot invert the cast. */
  lemma ByteRoundTrip(n: int)
    requires 0 <= n < 256
    ensures FromByte(ToByte(n)) == n
  {
    hide *;
    var b := ByteWithValue(n);
    WidenNarrow(b);
  }

  lemma WidenNarrow(b: bv8)
    ensures ToByte(FromByte(b)) == b
  {
  }

  lemma {:induction false} ByteWithValue(m: int) returns (b: bv8)
    requires 0 <= m < 256
    ensures FromByte(b) == m
    decreases m
  {
    hide FromByte;
    if m == 0 {
      b := 0;
      ZeroByte();
    } else {
      var c := ByteWithValue(m - 1);
      b := c + 1;
      NextByte(c);
    }
  }

  lemma ZeroByte()
    ensures FromByte(0) == 0
  {
  }

  lemma NextByte(c: bv8)
    requires FromByte(c) < 255
    ensures FromByte(c + 1) == FromByte(c) + 1
  {
  }

  /** Two bytes, most significant first, as FLOPW lays them out. */
  function Be16(n: int): (s: seq<bv8>)
    ensures |s| == 2
  {
    [ToByte(n / 256 % 256), ToByte(n % 256)]
  }

  function Be32(n: int): (s: seq<bv8>)
    ensures |s| == 4
  {
    [ToByte(n / 0x100_0000 % 256), ToByte(n / 0x1_0000 % 256), ToByte(n / 0x100 % 256), ToByte(n % 256)]
  }

  function FromBe(s: seq<bv8>): int {
    if s == [] then 0 else FromBe(s[..|s| - 1]) * 256 + FromByte(s[|s| - 1])
  }

  lemma FromBeTwo(a: bv8, b: bv8)
    ensures FromBe([a, b]) == FromByte(a) * 256 + FromByte(b)
  {
    hide FromByte;
    assert [a][..0] == [] && FromBe([a]) == FromByte(a);
    assert [a, b][..1] == [a];
  }

  lemma FromBeFour(a: bv8, b: bv8, c: bv8, d: bv8)
    ensures FromBe([a, b, c, d]) ==
            ((FromByte(a) * 256 + FromByte(b)) * 256 + FromByte(c)) * 256 + FromByte(d)
  {
    hide FromByte;
    assert [a, b, c, d][..3] == [a, b, c] && [a, b, c][..2] == [a, b];
    FromBeTwo(a, b);
  }

  lemma Be16RoundTrip(n: int)
    requires 0 <= n < 0x1_0000
    ensures FromBe(Be16(n)) == n
  {
    hide FromByte, ToByte, FromBe;
    FromBeTwo(ToByte(n / 256 % 256), ToByte(n % 256));
    ByteRoundTrip(n / 256 % 256);
    ByteRoundTrip(n % 256);
  }

  lemma Be32RoundTrip(n: int)
    requires 0 <= n < ADDRESS_SPACE
    ensures FromBe(Be32(n)) == n
  {
    hide FromByte, ToByte, FromBe;
    FromBeFour(ToByte(n / 0x100_0000 % 256), ToByte(n / 0x1_0000 % 256), ToByte(n / 0x100 % 256), ToByte(n % 256));
    ByteRoundTrip(n / 0x100_0000 % 256);
    ByteRoundTrip(n / 0x1_0000 % 256);
    ByteRoundTrip(n / 0x100 % 256);
    ByteRoundTrip(n % 256);
    FourDigits(n);
  }

  lemma FourDigits(n: int)
    requires 0 <= n < ADDRESS_SPACE
    ensures (((n / 0x100_0000 % 256) * 256 + n / 0x1_0000 % 256) * 256 + n / 0x100 % 256) * 256 + n % 256 == n
  {
    var n1, n2 := n / 0x100, n / 0x1_0000;
    assert n1 / 0x100 == n2 && n2 / 0x100 == n / 0x100_0000;
    assert n == n1 * 256 + n % 256 && n1 == n2 * 256 + n1 % 256;
  }

  /** A number stored least significant byte first, as the host lays out its structures. */
  function FromLe(s: seq<bv8>): (n: int)
    ensures 0 <= n
  {
    if s == [] then 0 else FromByte(s[0]) + 256 * FromLe(s[1..])
  }

  function Le32(n: int): (s: seq<bv8>)
    ensures |s| == 4
  {
    [ToByte(n % 256), ToByte(n / 0x100 % 256), ToByte(n / 0x1_0000 % 256), ToByte(n / 0x100_0000 % 256)]
  }

  lemma FromLeFour(a: bv8, b: bv8, c: bv8, d: bv8)
    ensures FromLe([a, b, c, d]) ==
            ((FromByte(d) * 256 + FromByte(c)) * 256 + FromByte(b)) * 256 + FromByte(a)
  {
    hide FromByte;
    assert [a, b, c, d][1..] == [b, c, d] && [b, c, d][1..] == [c, d] && [c, d][1..] == [d] && [d][1..] == [];
    assert FromLe([d]) == FromByte(d);
    assert FromLe([c, d]) == FromByte(c) + 256 * FromLe([d]);
    assert FromLe([b, c, d]) == FromByte(b) + 256 * FromLe([c, d]);
    assert FromLe([a, b, c, d]) == FromByte(a) + 256 * FromLe([b, c, d]);
  }

  lemma Le32RoundTrip(n: int)
    requires 0 <= n < ADDRESS_SPACE
    ensures FromLe(Le32(n)) == n
  {
    hide FromByte, ToByte, FromLe;
    FromLeFour(ToByte(n % 256), ToByte(n / 0x100 % 256), ToByte(n / 0x1_0000 % 256), ToByte(n / 0x100_0000 % 256));
    ByteRoundTrip(n / 0x100_0000 % 256);
    ByteRoundTrip(n / 0x1_0000 % 256);
    ByteRoundTrip(n / 0x100 % 256);
    ByteRoundTrip(n % 256);
    FourDigits(n);
  }
}
