/** The Annex-B byte stream format of H.264 / H.265 (Annex B of ITU-T H.264
    and of ITU-T H.265): NAL units separated by the start codes `00 00 01`
    and `00 00 00 01`. This module measures the start code at the head of a
    buffer, searches for the next one, and iterates over the NAL units of a
    caller-owned buffer, consuming it in place. */
module AnnexB {
  import opened Errors
  import opened Bytes

  /** The bytes of an `n`-byte start code. */
  function StartCode(n: nat): seq<byte>
    requires n == 3 || n == 4
  {
    if n == 3 then [0, 0, 1] else [0, 0, 0, 1]
  }

  /** The three bytes `00 00 01` begin at index `j` of `b`. */
  predicate ThreeByteAt(b: seq<byte>, j: nat)
  {
    j + 3 <= |b| && b[j] == 0 && b[j + 1] == 0 && b[j + 2] == 1
  }

  /** The length of the start code at the head of `b`: `None` while too few
      bytes are present to decide, an error when the head is provably not a
      start code. */
  function AfterStartCode(b: seq<byte>): (r: Result<Option<nat>>)
    ensures r == Ok(None) <==> |b| < 3 || b == [0, 0, 0]
    ensures r == Ok(Some(3)) <==> |b| >= 3 && b[..3] == StartCode(3)
    ensures r == Ok(Some(4)) <==> |b| >= 4 && b[..4] == StartCode(4)
    ensures r.Ok? && r.value.Some? ==> r.value.value == 3 || r.value.value == 4
    ensures r == Err(InvalidStartCode) <==> |b| >= 3 && b[0] == 0 && b[1] == 0 && b[2] > 1
    ensures r.Err? ==> r.error == MissingStartCode || r.error == InvalidStartCode
  {
    if |b| < 3 then Ok(None)
    else if b[0] != 0 then Err(MissingStartCode)
    else if b[1] != 0 then Err(MissingStartCode)
    else if b[2] == 0 then
      if |b| < 4 then Ok(None)
      else if b[3] != 1 then Err(MissingStartCode)
      else Ok(Some(4))
    else if b[2] == 1 then Ok(Some(3))
    else Err(InvalidStartCode)
  }

  /** A buffer that begins with a start code is measured as that start code,
      whatever follows it. */
  lemma AfterStartCodeOfCode(n: nat, rest: seq<byte>)
    requires n == 3 || n == 4
    ensures AfterStartCode(StartCode(n) + rest) == Ok(Some(n))
  {
    assert (StartCode(n) + rest)[..n] == StartCode(n);
  }

  /** The reference scan: examine every index from `i` on, byte by byte. The
      first `00 00 01`, at index j, is reported as the 4-byte start code at
      j - 1 when the byte before it is zero, and as the 3-byte one at j
      otherwise. */
  function ScanFrom(b: seq<byte>, i: nat): (r: Option<(nat, nat)>)
    ensures r.Some? ==> r.value.0 + 3 <= |b|
    decreases |b| - i
  {
    if i + 3 > |b| then None
    else if ThreeByteAt(b, i) then
      if i > 0 && b[i - 1] == 0 then Some((i - 1, 4)) else Some((i, 3))
    else ScanFrom(b, i + 1)
  }

  function NaiveScan(b: seq<byte>): Option<(nat, nat)>
  {
    ScanFrom(b, 0)
  }

  /** Indices holding no `00 00 01` can be skipped without changing the scan. */
  lemma {:induction false} ScanSkip(b: seq<byte>, i: nat, m: nat)
    requires i <= m
    requires forall j :: i <= j < m ==> !ThreeByteAt(b, j)
    ensures ScanFrom(b, i) == ScanFrom(b, m)
    decreases m - i
  {
    if i < m {
      ScanSkip(b, i + 1, m);
    }
  }

  /** The scan from `i` reports nothing exactly when no `00 00 01` begins at or
      after `i`; otherwise it reports the first one, lengthened to four bytes
      exactly when a zero byte precedes it. */
  lemma {:induction false} ScanFromFindsFirst(b: seq<byte>, i: nat)
    ensures ScanFrom(b, i).None? <==> forall j :: i <= j ==> !ThreeByteAt(b, j)
    ensures ScanFrom(b, i).Some? ==>
      var off, n := ScanFrom(b, i).value.0, ScanFrom(b, i).value.1;
      && (n == 3 || n == 4)
      && i <= off + n - 3
      && ThreeByteAt(b, off + n - 3)
      && (forall k :: i <= k < off + n - 3 ==> !ThreeByteAt(b, k))
      && (n == 4 <==> off + n - 3 > 0 && b[off + n - 4] == 0)
    decreases |b| - i
  {
    if i + 3 > |b| {
    } else if ThreeByteAt(b, i) {
    } else {
      ScanFromFindsFirst(b, i + 1);
    }
  }

  /** The reference scan finds the first `00 00 01` of `b`, and nothing when
      there is none. */
  lemma NaiveScanFindsFirst(b: seq<byte>)
    ensures NaiveScan(b).None? <==> forall j :: !ThreeByteAt(b, j)
    ensures NaiveScan(b).Some? ==>
      var off, n := NaiveScan(b).value.0, NaiveScan(b).value.1;
      var j := off + n - 3;
      && j >= 0
      && ThreeByteAt(b, j)
      && (forall k: nat :: k < j ==> !ThreeByteAt(b, k))
      && NaiveScan(b) == if j > 0 && b[j - 1] == 0 then Some((j - 1, 4)) else Some((j, 3))
  {
    ScanFromFindsFirst(b, 0);
  }

  /** Whatever the reference scan reports is a whole start code inside `b`,
      and no `00 00 01` lies entirely before it. */
  lemma NaiveScanIsStartCode(b: seq<byte>)
    requires NaiveScan(b).Some?
    ensures var off, n := NaiveScan(b).value.0, NaiveScan(b).value.1;
      && (n == 3 || n == 4)
      && off + n <= |b|
      && b[off..off + n] == StartCode(n)
      && forall k :: !ThreeByteAt(b[..off], k)
  {
    ScanFromFindsFirst(b, 0);
    var off, n := NaiveScan(b).value.0, NaiveScan(b).value.1;
    forall k ensures !ThreeByteAt(b[..off], k) {
      if ThreeByteAt(b[..off], k) {
        assert ThreeByteAt(b, k);
      }
    }
  }

  // The three kinds of skip taken by FindStartCode, each over indices that
  // provably hold no `00 00 01`.

  lemma SkipOne(b: seq<byte>, pos: nat)
    requires pos + 3 <= |b| && b[pos + 2] == 0
    ensures ScanFrom(b, pos) == ScanFrom(b, pos + 1)
  {
    ScanSkip(b, pos, pos + 1);
  }

  lemma SkipThree(b: seq<byte>, pos: nat)
    requires pos + 3 <= |b|
    requires b[pos + 2] > 1 || (b[pos + 2] == 1 && (b[pos + 1] != 0 || b[pos] != 0))
    ensures ScanFrom(b, pos) == ScanFrom(b, pos + 3)
  {
    ScanSkip(b, pos, pos + 3);
  }

  lemma SkipFour(b: seq<byte>, pos: nat)
    requires pos + 4 <= |b| && b[pos + 2] == 0
    requires b[pos + 3] > 1 || (b[pos + 3] == 1 && b[pos + 1] != 0)
    ensures ScanFrom(b, pos) == ScanFrom(b, pos + 4)
  {
    ScanSkip(b, pos, pos + 4);
  }

  /** `find_start_code`, which looks at the third byte first and skips
      1, 3 or 4 bytes at a time. It reports the offset and length of the first
      start code of `b`, exactly as the byte-by-byte reference scan does. */
  method FindStartCode(b: seq<byte>) returns (r: Option<(nat, nat)>)
    ensures r == NaiveScan(b)
  {
    var size := |b|;
    var c := b;
    while |c| >= 3
      invariant |c| <= size && c == b[size - |c|..]
      invariant ScanFrom(b, size - |c|) == NaiveScan(b)
      invariant size - |c| > 0 && b[size - |c| - 1] == 0 ==> |c| >= 3 && c[2] == 0
      decreases |c|
    {
      var pos := size - |c|;
      if c[2] == 0 && |c| >= 4 {
        if c[3] == 1 {
          if c[1] == 0 {
            SkipOne(b, pos);
            if c[0] == 0 {
              return Some((pos, 4));
            } else {
              return Some((pos + 1, 3));
            }
          } else {
            // ? x 0 1
            SkipFour(b, pos);
            c := c[4..];
          }
        } else if c[3] == 0 {
          // ? ? 0 0: the next index may start 00 00 01
          SkipOne(b, pos);
          c := c[1..];
        } else {
          // ? ? 0 x
          SkipFour(b, pos);
          c := c[4..];
        }
      } else if c[2] == 0 {
        // ? ? 0 and nothing after it
        SkipOne(b, pos);
        return None;
      } else if c[2] == 1 {
        if c[1] == 0 && c[0] == 0 {
          return Some((pos, 3));
        } else {
          // ? 0 1 or ? x 1
          SkipThree(b, pos);
          c := c[3..];
        }
      } else {
        // ? ? x
        SkipThree(b, pos);
        c := c[3..];
      }
    }
    return None;
  }

  /** When the scan of `rest` finds a start code `size` bytes in, `rest`
      splits into a NAL unit holding no `00 00 01` and a remainder headed by
      the start code found. */
  lemma SplitAtStartCode(rest: seq<byte>)
    requires NaiveScan(rest).Some?
    ensures var size, next := NaiveScan(rest).value.0, NaiveScan(rest).value.1;
      && AfterStartCode(rest[size..]) == Ok(Some(next))
      && forall j :: !ThreeByteAt(rest[..size], j)
  {
    var size, next := NaiveScan(rest).value.0, NaiveScan(rest).value.1;
    NaiveScanIsStartCode(rest);
    assert rest[size..][..next] == rest[size..size + next];
  }

  /** The outcome of one step of the NAL iterator: the item it yields, the
      buffer it leaves and the start-code length it caches. */
  datatype NalStep = NalStep(item: Option<Result<seq<byte>>>, rest: seq<byte>, start: Option<nat>)

  /** One step of the NAL iterator over `b`, whose head start code is `start`
      when cached. An error measuring the head start code is yielded; while
      the head or the next start code is incomplete, nothing is yielded and
      nothing changes; otherwise the NAL unit between the two start codes is
      yielded and `b` is left at the next start code. */
  function NextNal(b: seq<byte>, start: Option<nat>): (st: NalStep)
    requires start.Some? ==> AfterStartCode(b) == Ok(Some(start.value))
    ensures |st.rest| <= |b|
    ensures st.item.Some? && st.item.value.Ok? ==> |st.rest| + 3 <= |b| - |st.item.value.value|
  {
    var lead := if start.Some? then Ok(Some(start.value)) else AfterStartCode(b);
    if lead.Err? then NalStep(Some(Err(lead.error)), b, start)
    else if lead.value.None? then NalStep(None, b, start)
    else
      var rest := b[lead.value.value..];
      var sc := NaiveScan(rest);
      if sc.None? then NalStep(None, b, start)
      else NalStep(Some(Ok(rest[..sc.value.0])), rest[sc.value.0..], Some(sc.value.1))
  }

  /** A step that yields a NAL unit moves the buffer past it: the unit is
      what lies between the head start code and the next one, it holds no
      `00 00 01` of its own, and the buffer is left headed by the start code
      whose length is cached. */
  lemma NextNalYields(b: seq<byte>, start: Option<nat>)
    requires start.Some? ==> AfterStartCode(b) == Ok(Some(start.value))
    requires NextNal(b, start).item.Some? && NextNal(b, start).item.value.Ok?
    ensures var st := NextNal(b, start);
      && (exists k :: (k == 3 || k == 4) && b == StartCode(k) + st.item.value.value + st.rest)
      && (forall j :: !ThreeByteAt(st.item.value.value, j))
      && st.start.Some?
      && AfterStartCode(st.rest) == Ok(Some(st.start.value))
  {
    var k := if start.Some? then start.value else AfterStartCode(b).value.value;
    LeadSplits(b, k);
    SplitAtStartCode(b[k..]);
  }

  /** A buffer headed by a `k`-byte start code with a start code after it is
      that start code, the bytes up to the next one, and the rest. */
  lemma LeadSplits(b: seq<byte>, k: nat)
    requires AfterStartCode(b) == Ok(Some(k)) && NaiveScan(b[k..]).Some?
    ensures var rest := b[k..]; var size := NaiveScan(rest).value.0;
      && (k == 3 || k == 4)
      && b == StartCode(k) + rest[..size] + rest[size..]
  {
    var rest := b[k..];
    var size := NaiveScan(rest).value.0;
    assert b[..k] == StartCode(k);
    assert rest == rest[..size] + rest[size..];
    assert b == b[..k] + rest;
  }

  /** Any other step leaves the buffer and the cache as they were, and it
      yields an error only when no start code was cached and the head of the
      buffer is not one. */
  lemma NextNalStalls(b: seq<byte>, start: Option<nat>)
    requires start.Some? ==> AfterStartCode(b) == Ok(Some(start.value))
    requires NextNal(b, start).item.None? || NextNal(b, start).item.value.Err?
    ensures NextNal(b, start).rest == b && NextNal(b, start).start == start
    ensures NextNal(b, start).item.Some? ==>
      start.None? && AfterStartCode(b) == Err(NextNal(b, start).item.value.error)
  {
  }

  /** The search on the edge cases of the `find_start_code` unit tests: a 4-byte start code after
      a non-zero byte, a `00 00` not followed by `01`, and a run of zeros. */
  lemma ScanExamples()
    ensures NaiveScan([0x67, 0x42, 0x00, 0x1f, 0, 0, 1]) == Some((4, 3))
    ensures NaiveScan([0xff, 0, 0, 0, 1]) == Some((1, 4))
    ensures NaiveScan([0xff, 0, 0, 0xff, 0, 0, 1]) == Some((4, 3))
    ensures NaiveScan([0xff, 0, 0, 0, 0, 0, 1]) == Some((3, 4))
    ensures NaiveScan([0x67, 0x42, 0x00, 0x1f, 0, 0]) == None
  {
  }

  // Iterating over `00 00 00 01 67 42 00 00 00 01 68 CE 00 00 00 01` yields
  // `67 42`, then `68 CE`, then nothing, and leaves the final start code in
  // the buffer.

  const STREAM: seq<byte> := [0, 0, 0, 1, 0x67, 0x42, 0, 0, 0, 1, 0x68, 0xce, 0, 0, 0, 1]
  const STREAM_AFTER_FIRST: seq<byte> := [0, 0, 0, 1, 0x68, 0xce, 0, 0, 0, 1]
  const STREAM_AFTER_SECOND: seq<byte> := [0, 0, 0, 1]

  lemma IteratorExampleFirst()
    ensures NextNal(STREAM, None) == NalStep(Some(Ok([0x67, 0x42])), STREAM_AFTER_FIRST, Some(4))
  {
    var rest := STREAM[4..];
    assert STREAM[..4] == StartCode(4);
    assert rest == [0x67, 0x42] + STREAM_AFTER_FIRST;
    assert ThreeByteAt(rest, 3) && ScanFrom(rest, 3) == Some((2, 4));
    ScanSkip(rest, 0, 3);
  }

  lemma IteratorExampleSecond()
    ensures NextNal(STREAM_AFTER_FIRST, Some(4)) == NalStep(Some(Ok([0x68, 0xce])), STREAM_AFTER_SECOND, Some(4))
  {
    var rest := STREAM_AFTER_FIRST[4..];
    assert STREAM_AFTER_FIRST[..4] == StartCode(4);
    assert rest == [0x68, 0xce] + STREAM_AFTER_SECOND;
    assert ThreeByteAt(rest, 3) && ScanFrom(rest, 3) == Some((2, 4));
    ScanSkip(rest, 0, 3);
  }

  lemma IteratorExampleLast()
    ensures NextNal(STREAM_AFTER_SECOND, Some(4)) == NalStep(None, STREAM_AFTER_SECOND, Some(4))
  {
    assert STREAM_AFTER_SECOND[..4] == StartCode(4);
    assert STREAM_AFTER_SECOND[4..] == [];
  }

  // Two adjacent start codes delimit an empty NAL unit: iterating over
  // `00 00 01 00 00 01 67 00 00 01` first yields nothing but the empty unit.

  const ADJACENT: seq<byte> := [0, 0, 1, 0, 0, 1, 0x67, 0, 0, 1]
  const ADJACENT_AFTER_FIRST: seq<byte> := [0, 0, 1, 0x67, 0, 0, 1]

  lemma EmptyNalExample()
    ensures NextNal(ADJACENT, None) == NalStep(Some(Ok([])), ADJACENT_AFTER_FIRST, Some(3))
  {
    assert ADJACENT[..3] == StartCode(3);
    assert ADJACENT[3..] == ADJACENT_AFTER_FIRST;
    assert ThreeByteAt(ADJACENT_AFTER_FIRST, 0);
  }

  /** A head that is not a start code is reported, and the buffer is kept. */
  lemma InvalidHeadExample()
    ensures NextNal([1, 0, 1, 0x67], None) == NalStep(Some(Err(MissingStartCode)), [1, 0, 1, 0x67], None)
  {
  }

  /** Iterates over the NAL units of a caller-owned buffer. `start` caches the
      length of the start code at the head of the buffer once it is known. */
  class NalIterator {
    const buf: Buf
    var start: Option<nat>

    ghost predicate Valid()
      reads this, buf
    {
      start.Some? ==> AfterStartCode(buf.bytes) == Ok(Some(start.value))
    }

    constructor (buf: Buf)
      ensures this.buf == buf && start == None && Valid()
    {
      this.buf := buf;
      start := None;
    }

    /** The length of the start code at the head of the buffer: the cached one,
        or else the one measured now. */
    ghost function Lead(): Result<Option<nat>>
      reads this, buf
    {
      if start.Some? then Ok(Some(start.value)) else AfterStartCode(buf.bytes)
    }

    /** One step of the iterator, as `NextNal` describes it: emits the NAL
        unit between the head start code and the next one and leaves the
        buffer at that next start code, whose length is cached; yields
        nothing, with the buffer untouched, while no next start code is
        present. */
    method Next() returns (item: Option<Result<seq<byte>>>)
      requires Valid()
      modifies this, buf
      ensures Valid()
      ensures var st := NextNal(old(buf.bytes), old(start));
        item == st.item && buf.bytes == st.rest && start == st.start
    {
      var k: nat;
      if start.Some? {
        k := start.value;
      } else {
        var lead := AfterStartCode(buf.bytes);
        if lead.Err? {
          return Some(Err(lead.error));
        }
        if lead.value.None? {
          return None;
        }
        k := lead.value.value;
      }
      ghost var before := buf.bytes;
      var found := FindStartCode(buf.bytes[k..]);
      if found.None? {
        return None;
      }
      var (size, next) := found.value;
      SplitAtStartCode(before[k..]);
      buf.Advance(k);
      var nal := buf.CopyToBytes(size);
      start := Some(next);
      return Some(Ok(nal));
    }

    /** Treats everything after the head start code as the final NAL unit and
        consumes the whole buffer. The iterator is used up by this call. */
    method Flush() returns (r: Result<Option<seq<byte>>>)
      requires Valid()
      modifies buf
      ensures old(Lead()).Err? ==> r == Err(old(Lead()).error) && buf.bytes == old(buf.bytes)
      ensures old(Lead()) == Ok(None) ==> r == Ok(None) && buf.bytes == old(buf.bytes)
      ensures old(Lead()).Ok? && old(Lead()).value.Some? ==>
        var k := old(Lead()).value.value;
        && (k == 3 || k == 4)
        && r.Ok? && r.value.Some?
        && old(buf.bytes) == StartCode(k) + r.value.value
        && buf.bytes == []
    {
      var k: nat;
      if start.Some? {
        k := start.value;
      } else {
        var lead := AfterStartCode(buf.bytes);
        if lead.Err? {
          return Err(lead.error);
        }
        if lead.value.None? {
          return Ok(None);
        }
        k := lead.value.value;
      }
      ghost var before := buf.bytes;
      assert before[..k] == StartCode(k);
      buf.Advance(k);
      var nal := buf.CopyToBytes(buf.Remaining());
      assert before == StartCode(k) + nal;
      return Ok(Some(nal));
    }
  }
}
