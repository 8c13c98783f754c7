/** Bytes, and numbers written in three to five of them, least significant first. */
module ByteOrder {

  type Byte = x: int | 0 <= x < 256
  type Bytes = seq<Byte>

  function Le3(n: nat): (b: Bytes)
    ensures |b| == 3
  {
    [n % 0x100, n / 0x100 % 0x100, n / 0x100 / 0x100 % 0x100]
  }

  function Le4(n: nat): (b: Bytes)
    ensures |b| == 4
  {
    [n % 0x100] + Le3(n / 0x100)
  }

  function Le5(n: nat): (b: Bytes)
    ensures |b| == 5
  {
    [n % 0x100] + Le4(n / 0x100)
  }

  function FromLe3(a: Byte, b: Byte, c: Byte): nat {
    a + 0x100 * (b + 0x100 * c)
  }

  function FromLe4(a: Byte, b: Byte, c: Byte, d: Byte): nat {
    a + 0x100 * FromLe3(b, c, d)
  }

  function FromLe5(a: Byte, b: Byte, c: Byte, d: Byte, e: Byte): nat {
    a + 0x100 * FromLe4(b, c, d, e)
  }

  lemma {:induction false} Le3RoundTrip(n: nat)
    requires n < 0x100_0000
    ensures FromLe3(Le3(n)[0], Le3(n)[1], Le3(n)[2]) == n
  {
  }

  lemma {:induction false} Le4RoundTrip(n: nat)
    requires n < 0x1_0000_0000
    ensures FromLe4(Le4(n)[0], Le4(n)[1], Le4(n)[2], Le4(n)[3]) == n
  {
    Le3RoundTrip(n / 0x100);
  }

  lemma {:induction false} Le5RoundTrip(n: nat)
    requires n < 0x100_0000_0000
    ensures FromLe5(Le5(n)[0], Le5(n)[1], Le5(n)[2], Le5(n)[3], Le5(n)[4]) == n
  {
    Le4RoundTrip(n / 0x100);
  }
}
