/** Bytes, fixed-width integers read from bytes, and the consumable byte
    cursor (the `bytes::Buf` trait) that every parser of the import layer
    reads from and advances. */
module Bytes {
  import opened Errors

  /** An octet (`u8`). */
  newtype byte = x: int | 0 <= x < 256

  /** The outcome of a parser that reads from the head of a buffer: its result
      and how many bytes it consumed before succeeding or failing. */
  datatype Parsed<T> = Parsed(result: Result<T>, consumed: nat)

  function Pow256(n: nat): (r: nat)
    ensures r >= 1
  {
    if n == 0 then 1 else 256 * Pow256(n - 1)
  }

  /** The unsigned integer whose big-endian encoding is `s` (`u64::from_be_bytes`
      for eight bytes). */
  function BeUint(s: seq<byte>): nat
  {
    if s == [] then 0 else BeUint(s[..|s| - 1]) * 256 + s[|s| - 1] as nat
  }

  /** The unsigned integer whose little-endian encoding is `s`
      (`u32::from_le_bytes` for four bytes). */
  function LeUint(s: seq<byte>): nat
  {
    if s == [] then 0 else s[0] as nat + 256 * LeUint(s[1..])
  }

  /** The `n`-byte big-endian encoding of `v`. */
  function BeBytes(v: nat, n: nat): (r: seq<byte>)
    ensures |r| == n
  {
    if n == 0 then [] else BeBytes(v / 256, n - 1) + [(v % 256) as byte]
  }

  /** The `n`-byte little-endian encoding of `v`. */
  function LeBytes(v: nat, n: nat): (r: seq<byte>)
    ensures |r| == n
  {
    if n == 0 then [] else [(v % 256) as byte] + LeBytes(v / 256, n - 1)
  }

  lemma DivMod256(a: nat, x: nat)
    requires x < 256
    ensures (a * 256 + x) / 256 == a && (a * 256 + x) % 256 == x
  {
  }

  lemma Split256(v: nat, p: nat)
    requires v < 256 * p
    ensures v / 256 < p && v == (v / 256) * 256 + v % 256
  {
  }

  lemma BeUintSnoc(p: seq<byte>, b: byte)
    ensures BeUint(p + [b]) == BeUint(p) * 256 + b as nat
  {
    assert (p + [b])[..|p|] == p;
  }

  /** An `n`-byte integer is below 256^n, whichever byte order it is read in. */
  lemma {:induction false} BeUintBound(s: seq<byte>)
    ensures BeUint(s) < Pow256(|s|)
  {
    if s != [] {
      var p := s[..|s| - 1];
      BeUintBound(p);
      assert BeUint(s) == BeUint(p) * 256 + s[|s| - 1] as nat;
      assert BeUint(p) + 1 <= Pow256(|p|);
      assert (BeUint(p) + 1) * 256 <= Pow256(|p|) * 256;
    }
  }

  lemma {:induction false} LeUintBound(s: seq<byte>)
    ensures LeUint(s) < Pow256(|s|)
  {
    if s != [] {
      LeUintBound(s[1..]);
      assert LeUint(s[1..]) + 1 <= Pow256(|s| - 1);
      assert 256 * (LeUint(s[1..]) + 1) <= 256 * Pow256(|s| - 1);
    }
  }

  /** Reading back a big-endian encoding gives the encoded value. */
  lemma {:induction false} BeUintOfBeBytes(v: nat, n: nat)
    requires v < Pow256(n)
    ensures BeUint(BeBytes(v, n)) == v
  {
    if n > 0 {
      var r := BeBytes(v, n);
      var q, x := v / 256, v % 256;
      Split256(v, Pow256(n - 1));
      assert r == BeBytes(q, n - 1) + [x as byte];
      BeUintOfBeBytes(q, n - 1);
      BeUintSnoc(BeBytes(q, n - 1), x as byte);
    }
  }

  /** Re-encoding a big-endian integer gives back its bytes. */
  lemma {:induction false} BeBytesOfBeUint(s: seq<byte>)
    ensures BeBytes(BeUint(s), |s|) == s
  {
    if s != [] {
      var p := s[..|s| - 1];
      var x := s[|s| - 1];
      DivMod256(BeUint(p), x as nat);
      BeBytesOfBeUint(p);
      assert BeBytes(BeUint(s), |s|) == BeBytes(BeUint(p), |p|) + [x];
      assert s == p + [x];
    }
  }

  /** Two byte strings of one length with the same big-endian value are equal. */
  lemma BeUintInjective(s: seq<byte>, t: seq<byte>)
    requires |s| == |t| && BeUint(s) == BeUint(t)
    ensures s == t
  {
    BeBytesOfBeUint(s);
    BeBytesOfBeUint(t);
  }

  /** Reading back a little-endian encoding gives the encoded value. */
  lemma {:induction false} LeUintOfLeBytes(v: nat, n: nat)
    requires v < Pow256(n)
    ensures LeUint(LeBytes(v, n)) == v
  {
    if n > 0 {
      var r := LeBytes(v, n);
      var q, x := v / 256, v % 256;
      Split256(v, Pow256(n - 1));
      assert r[1..] == LeBytes(q, n - 1);
      assert r[0] as nat == x;
      LeUintOfLeBytes(q, n - 1);
      assert LeUint(r) == x + 256 * q;
    }
  }

  /** A consumable, advance-only view over bytes: `bytes` holds what is still
      remaining. Reading operations panic in Rust when too few bytes remain;
      here they require enough bytes, which every caller checks first. */
  class Buf {
    var bytes: seq<byte>

    constructor (bytes: seq<byte>)
      ensures this.bytes == bytes
    {
      this.bytes := bytes;
    }

    function Remaining(): nat
      reads this
    {
      |bytes|
    }

    method GetU8() returns (b: byte)
      requires 1 <= |bytes|
      modifies this
      ensures b == old(bytes[0]) && bytes == old(bytes[1..])
    {
      b := bytes[0];
      bytes := bytes[1..];
    }

    method GetU64() returns (v: nat)
      requires 8 <= |bytes|
      modifies this
      ensures v == BeUint(old(bytes[..8])) && bytes == old(bytes[8..])
    {
      v := BeUint(bytes[..8]);
      bytes := bytes[8..];
    }

    method GetU32Le() returns (v: nat)
      requires 4 <= |bytes|
      modifies this
      ensures v == LeUint(old(bytes[..4])) && bytes == old(bytes[4..])
    {
      v := LeUint(bytes[..4]);
      bytes := bytes[4..];
    }

    method Advance(n: nat)
      requires n <= |bytes|
      modifies this
      ensures bytes == old(bytes[n..])
    {
      bytes := bytes[n..];
    }

    method CopyToBytes(n: nat) returns (out: seq<byte>)
      requires n <= |bytes|
      modifies this
      ensures out == old(bytes[..n]) && bytes == old(bytes[n..])
    {
      out := bytes[..n];
      bytes := bytes[n..];
    }

    /** The contiguous chunk at the cursor: some prefix of what remains,
        non-empty whenever anything remains. Callers may rely on no more,
        since the chunking of the underlying storage is not modelled. */
    method Chunk() returns (c: seq<byte>)
      ensures |c| <= |bytes| && c == bytes[..|c|]
      ensures |bytes| > 0 ==> |c| > 0
    {
      c := bytes;
    }
  }

  /** Drains `buf` chunk by chunk, as the `decode` of the audio importers
      does to build a frame payload: the chunks, concatenated in order, are
      exactly the bytes that remained, and nothing is left behind. */
  method DrainChunks(buf: Buf) returns (payload: seq<byte>)
    modifies buf
    ensures payload == old(buf.bytes) && buf.bytes == []
  {
    payload := [];
    var chunk := buf.Chunk();
    while chunk != []
      invariant payload + buf.bytes == old(buf.bytes)
      invariant |chunk| <= |buf.bytes| && chunk == buf.bytes[..|chunk|]
      invariant |buf.bytes| > 0 ==> |chunk| > 0
      decreases |buf.bytes|
    {
      var bytes := buf.CopyToBytes(|chunk|);
      payload := payload + bytes;
      chunk := buf.Chunk();
    }
  }
}
