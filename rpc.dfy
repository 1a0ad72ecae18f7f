/** The memory-information reply of the RPC server and the backend memory
    figure it advertises (rpc/rpc.go). A connection is seen as the bytes the
    peer sends and the bytes the server writes back; the process memory
    figure `m.Sys` is a parameter. */
module Rpc {
  import opened GoInts

  newtype byte = x: int | 0 <= x < 256

  /** The only command the server answers: "get memory info". */
  const GetMemoryCommand: byte := 10

  /** The reply payload is two 8-byte integers. */
  const ReplySize: int := 16

  // ---------------------------------------------------------------------
  // 8-byte little-endian integers
  // ---------------------------------------------------------------------

  function Pow256(i: nat): (p: int)
    ensures p > 0
  {
    if i == 0 then 1 else 256 * Pow256(i - 1)
  }

  /** `byte(x >> (i * 8))` on an int64: the shift is arithmetic, i.e. floor
      division by 2^(8i), and the conversion keeps the low 8 bits. Dafny's
      `/` and `%` by a positive divisor are exactly floor and its remainder. */
  function ByteOf(x: int, i: nat): (b: byte)
    ensures (x / Pow256(i) - b as int) % 256 == 0
  {
    ((x / Pow256(i)) % 256) as byte
  }

  /** The eight bytes written for `x`, least significant first. */
  function LittleEndian(x: int): (bs: seq<byte>)
    ensures |bs| == 8
  {
    seq(8, i requires 0 <= i < 8 => ByteOf(x, i))
  }

  /** Reads bytes back as an unsigned little-endian number. */
  function FromLittleEndian(bs: seq<byte>): nat {
    if bs == [] then 0 else bs[0] as int + 256 * FromLittleEndian(bs[1..])
  }

  /** Fills a fresh 8-byte buffer with `x`, one byte per iteration. */
  method EncodeInt64(x: int) returns (buf: array<byte>)
    ensures buf.Length == 8
    ensures forall i :: 0 <= i < 8 ==> buf[i] == ByteOf(x, i)
    ensures buf[..] == LittleEndian(x)
  {
    buf := new byte[8];
    for i := 0 to 8
      invariant forall k :: 0 <= k < i ==> buf[k] == ByteOf(x, k)
    {
      buf[i] := ByteOf(x, i);
    }
  }

  /** A multiple of a positive `d` strictly between -d and d is zero. */
  lemma MulZero(d: int, k: int)
    requires d > 0 && -d < d * k < d
    ensures k == 0
  {
  }

  /** Euclidean division is determined by its defining equation. */
  lemma DivModUnique(x: int, d: int, q: int, m: int)
    requires d > 0 && x == d * q + m && 0 <= m < d
    ensures x / d == q && x % d == m
  {
    var q', m' := x / d, x % d;
    assert x == d * q' + m';
    assert d * (q - q') == d * q - d * q';
    MulZero(d, q - q');
  }

  /** Dividing twice is dividing by the product. */
  lemma DivDiv(x: int, a: int, b: int)
    requires a > 0 && b > 0
    ensures x / (a * b) == (x / a) / b
  {
    var q1, r1 := x / a, x % a;
    var q2, r2 := q1 / b, q1 % b;
    var ab := a * b;
    assert x == a * q1 + r1;
    assert q1 == b * q2 + r2;
    assert a * q1 == ab * q2 + a * r2 by {
      assert a * (b * q2 + r2) == a * (b * q2) + a * r2;
      assert a * (b * q2) == ab * q2;
    }
    assert 0 <= a * r2 <= a * (b - 1) by {
      assert 0 <= r2 <= b - 1;
    }
    assert a * (b - 1) == ab - a;
    DivModUnique(x, ab, q2, a * r2 + r1);
  }

  /** The remainder by 256·q splits into the low byte and the rest. */
  lemma ModSplit(y: int, q: int)
    requires q > 0
    ensures y % (256 * q) == y % 256 + 256 * ((y / 256) % q)
  {
    var h, l := y / 256, y % 256;
    var a, b := h / q, h % q;
    var n := 256 * q;
    assert y == 256 * h + l;
    assert h == q * a + b;
    assert 256 * h == n * a + 256 * b by {
      assert 256 * (q * a + b) == 256 * (q * a) + 256 * b;
      assert 256 * (q * a) == n * a;
    }
    assert 0 <= 256 * b <= 256 * (q - 1) by {
      assert 0 <= b <= q - 1;
    }
    DivModUnique(y, n, a, 256 * b + l);
  }

  /** The bytes from position `n` on read back as the value's bits from 8n
      up to 64. */
  lemma {:induction false} SuffixValue(x: int, n: nat)
    requires n <= 8
    ensures FromLittleEndian(LittleEndian(x)[n..]) == (x / Pow256(n)) % Pow256(8 - n)
    decreases 8 - n
  {
    var bs := LittleEndian(x);
    if n < 8 {
      SuffixValue(x, n + 1);
      assert bs[n..][1..] == bs[n + 1..];
      var y := x / Pow256(n);
      calc {
        x / Pow256(n + 1);
        x / (Pow256(n) * 256);
        { DivDiv(x, Pow256(n), 256); }
        y / 256;
      }
      assert Pow256(8 - n) == 256 * Pow256(8 - (n + 1));
      ModSplit(y, Pow256(8 - (n + 1)));
    }
  }

  /** Reading the eight bytes back gives the value modulo 2^64. */
  lemma RoundTrip(x: int)
    ensures FromLittleEndian(LittleEndian(x)) == x % Two64
  {
    SuffixValue(x, 0);
    assert LittleEndian(x)[0..] == LittleEndian(x);
    assert Pow256(8) == Two64;
  }

  /** Reading the bytes back as a two's-complement int64 gives back any
      int64 exactly. */
  lemma SignedRoundTrip(x: int)
    requires IsInt64(x)
    ensures Int64(FromLittleEndian(LittleEndian(x))) == x
  {
    RoundTrip(x);
  }

  /** The reply-size field always carries 16. */
  lemma ReplySizeBytes()
    ensures LittleEndian(ReplySize) == [16, 0, 0, 0, 0, 0, 0, 0]
  {
  }

  // ---------------------------------------------------------------------
  // The connection handler
  // ---------------------------------------------------------------------

  /** Free memory as the handler reports it: 80% of `m.Sys`, computed in
      uint64 arithmetic (the product wraps at 2^64) and then read as int64. */
  function ReplyFree(sys: nat): int {
    Int64(((sys * 8) % Two64) / 10)
  }

  /** The 24 bytes answering a memory-info request: the payload size, then
      free memory, then total memory (`int64(m.Sys)`). */
  function MemoryReply(sys: nat): seq<byte> {
    LittleEndian(ReplySize) + LittleEndian(ReplyFree(sys)) + LittleEndian(Int64(sys))
  }

  /** `handleConnection` over the bytes the peer sent. A read fails exactly
      when no byte is left; a short read of the size field is accepted, as the
      handler never looks at the count. Writes are taken to succeed. */
  method HandleConnection(input: seq<byte>, sys: nat) returns (output: seq<byte>)
    ensures |input| >= 2 && input[0] == GetMemoryCommand ==> output == MemoryReply(sys)
    ensures !(|input| >= 2 && input[0] == GetMemoryCommand) ==> output == []
  {
    output := [];
    if |input| == 0 {
      return;  // reading the command failed
    }
    var cmd := input[0];
    if cmd == GetMemoryCommand {
      if |input| == 1 {
        return;  // reading the input size failed
      }
      // the size bytes input[1..] are read and ignored
      var freeMem := Int64(((sys * 8) % Two64) / 10);
      var totalMem := Int64(sys);
      var replySizeBuf := EncodeInt64(ReplySize);
      output := output + replySizeBuf[..];
      var freeMemBuf := EncodeInt64(freeMem);
      output := output + freeMemBuf[..];
      var totalMemBuf := EncodeInt64(totalMem);
      output := output + totalMemBuf[..];
    }
    // any other command is logged and the connection closed
  }

  /** The reply is 24 bytes: 16, then free memory, then total memory, and the
      two figures read back as 80% of `m.Sys` and `m.Sys` itself. */
  lemma MemoryReplyLayout(sys: nat)
    requires sys < Two64
    ensures |MemoryReply(sys)| == 24
    ensures MemoryReply(sys)[..8] == [16, 0, 0, 0, 0, 0, 0, 0]
    ensures FromLittleEndian(MemoryReply(sys)[8..16]) == ((sys * 8) % Two64) / 10
    ensures FromLittleEndian(MemoryReply(sys)[16..]) == sys
  {
    var reply := MemoryReply(sys);
    ReplySizeBytes();
    assert reply[..8] == LittleEndian(ReplySize);
    assert reply[8..16] == LittleEndian(ReplyFree(sys));
    assert reply[16..] == LittleEndian(Int64(sys));
    RoundTrip(ReplyFree(sys));
    RoundTrip(Int64(sys));
  }

  // ---------------------------------------------------------------------
  // Backend memory
  // ---------------------------------------------------------------------

  /** `GetBackendMemory`: a positive request is reported as both free and
      total memory; otherwise total is `int64(m.Sys)` and free is 80% of it in
      int64 arithmetic (the product wraps, the division truncates). */
  function GetBackendMemory(requestedMem: int, sys: nat): (r: (int, int))
    ensures requestedMem > 0 ==> r == (requestedMem, requestedMem)
    ensures requestedMem <= 0 && sys < Two63 ==> r.1 == sys
    ensures requestedMem <= 0 && 8 * sys < Two63 ==>
      0 <= r.0 <= r.1 && 10 * r.0 <= 8 * r.1 < 10 * r.0 + 10
  {
    if requestedMem > 0 then (requestedMem, requestedMem)
    else
      var totalMem := Int64(sys);
      var freeMem := Quot(Int64(totalMem * 8), 10);
      (freeMem, totalMem)
  }
}
