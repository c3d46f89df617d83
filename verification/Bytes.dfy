/** Bytes and big-endian 32-bit numbers, written into and read from buffers. */
module Bytes {

  type byte = b: int | 0 <= b < 256

  const U32_MAX := 0xFFFF_FFFF

  function U32be(n: nat): (bs: seq<byte>)
    requires n <= U32_MAX
    ensures |bs| == 4
  {
    [n / 0x100_0000, n / 0x1_0000 % 256, n / 256 % 256, n % 256]
  }

  function ReadU32(bs: seq<byte>): (n: nat)
    requires |bs| >= 4
    ensures n <= U32_MAX
  {
    ((256 * bs[0] as int + bs[1]) * 256 + bs[2]) * 256 + bs[3]
  }

  lemma {:induction false} ReadWritten(n: nat, rest: seq<byte>)
    requires n <= U32_MAX
    ensures ReadU32(U32be(n) + rest) == n
  {
    assert n / 0x1_0000 == n / 256 / 256;
    assert n / 0x100_0000 == n / 0x1_0000 / 256;
  }

  lemma {:induction false} WriteRead(bs: seq<byte>)
    requires |bs| >= 4
    ensures U32be(ReadU32(bs)) == bs[..4]
  {
    var n := ReadU32(bs);
    assert n / 256 == (256 * bs[0] as int + bs[1]) * 256 + bs[2];
    assert n / 0x1_0000 == n / 256 / 256;
    assert n / 0x100_0000 == n / 0x1_0000 / 256;
  }

  lemma {:induction false} U32beInjective(m: nat, n: nat)
    requires m <= U32_MAX && n <= U32_MAX && U32be(m) == U32be(n)
    ensures m == n
  {
    ReadWritten(m, []);
    ReadWritten(n, []);
    assert U32be(m) + [] == U32be(n) + [];
  }

  /** `setUint32(at, n)`, big-endian. */
  method PutU32(out: array<byte>, at: nat, n: nat)
    requires at + 4 <= out.Length && n <= U32_MAX
    modifies out
    ensures out[..] == old(out[..at]) + U32be(n) + old(out[at + 4..])
  {
    out[at], out[at + 1] := n / 0x100_0000, n / 0x1_0000 % 256;
    out[at + 2], out[at + 3] := n / 256 % 256, n % 256;
  }

  /** `out.set(data, at)`. */
  method Put(out: array<byte>, at: nat, data: seq<byte>)
    requires at + |data| <= out.Length
    modifies out
    ensures out[..] == old(out[..at]) + data + old(out[at + |data|..])
  {
    for i := 0 to |data|
      invariant out[..] == old(out[..at]) + data[..i] + old(out[at + i..])
    {
      out[at + i] := data[i];
    }
    assert data[..|data|] == data;
  }
}
