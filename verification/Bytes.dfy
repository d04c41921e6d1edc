/** Bytes, 32-bit words in the machine's byte order, and byte strings. */
module Bytes {
  const U16_LIMIT: int := 0x1_0000
  const U32_LIMIT: int := 0x1_0000_0000

  type Byte = x: int | 0 <= x < 256
  type U32 = x: int | 0 <= x < U32_LIMIT
  type ByteString = seq<Byte>

  /** Storing any unsigned integer in a `uint32_t` keeps its low 32 bits. */
  function Narrow(n: nat): U32 {
    n % U32_LIMIT
  }

  lemma NarrowSmall(n: nat)
    requires n < U32_LIMIT
    ensures Narrow(n) == n
  {
  }

  /** The `n` low bytes of `x`, least significant first. */
  function PutLow(x: nat, n: nat): (b: ByteString)
    ensures |b| == n
    decreases x, n
  {
    if n == 0 then [] else [x % 256] + PutLow(x / 256, n - 1)
  }

  function GetLow(b: ByteString): (x: nat)
    ensures x < Radix(|b|)
  {
    if b == [] then 0
    else
      var low: int := b[0];
      low + 256 * GetLow(b[1..])
  }

  /** How many values `n` bytes can take. */
  function Radix(n: nat): (r: nat)
    ensures r > 0
  {
    if n == 0 then 1 else 256 * Radix(n - 1)
  }

  lemma RadixOfWord()
    ensures Radix(4) == U32_LIMIT
  {
    assert Radix(1) == 256 && Radix(2) == 0x1_0000 && Radix(3) == 0x100_0000;
  }

  /** The four bytes of a `uint32_t` in memory (both peers share this order). */
  function PutU32(x: U32): (b: ByteString)
    ensures |b| == 4
  {
    PutLow(x, 4)
  }

  function GetU32(b: ByteString): U32
    requires |b| == 4
  {
    RadixOfWord();
    GetLow(b)
  }

  lemma {:induction false} GetPutLow(x: nat, n: nat)
    requires x < Radix(n)
    ensures GetLow(PutLow(x, n)) == x
    decreases n
  {
    if n > 0 {
      var b := PutLow(x, n);
      assert b[0] == x % 256 && b[1..] == PutLow(x / 256, n - 1);
      GetPutLow(x / 256, n - 1);
    }
  }

  lemma {:induction false} PutGetLow(b: ByteString)
    ensures PutLow(GetLow(b), |b|) == b
  {
    if b != [] {
      var x, low: int := GetLow(b), b[0];
      assert x % 256 == low && x / 256 == GetLow(b[1..]);
      PutGetLow(b[1..]);
    }
  }

  lemma GetPut(x: U32)
    ensures GetU32(PutU32(x)) == x
  {
    RadixOfWord();
    GetPutLow(x, 4);
  }

  lemma PutGet(b: ByteString)
    requires |b| == 4
    ensures PutU32(GetU32(b)) == b
  {
    PutGetLow(b);
  }

  /** Byte `k` is the `k`-th from the low end. */
  lemma WordBytes(x: U32)
    ensures PutU32(x) == [x % 256, x / 0x100 % 256, x / 0x1_0000 % 256, x / 0x100_0000 % 256]
  {
    var y, z, w := x / 256, x / 256 / 256, x / 256 / 256 / 256;
    assert PutLow(w, 1) == [w % 256] + PutLow(w / 256, 0) == [w % 256];
    assert PutLow(z, 2) == [z % 256] + PutLow(w, 1);
    assert PutLow(y, 3) == [y % 256] + PutLow(z, 2);
    assert z == x / 0x1_0000 && w == x / 0x100_0000;
  }
}
