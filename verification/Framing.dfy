/** The framing of a cache file, lengths and bounds checks: `write`, `read`, `write_len` and `read_len` of
    `src/cache_wire.rs`. */
module Framing {
  type byte = n: nat | n < 256

  const USIZE_MAX: nat := 0xFFFF_FFFF_FFFF_FFFF

  datatype ReadError = Truncated | Overflow | TooManyModules | TrailingData | Malformed

  datatype Result<T> = Ok(value: T) | Err(error: ReadError)

  // ----- Lengths

  /** The k low bytes of a number, lowest first. */
  function LittleEndian(n: nat, k: nat): (r: seq<byte>)
    ensures |r| == k
  {
    if k == 0 then [] else [n % 256] + LittleEndian(n / 256, k - 1)
  }

  function FromLittleEndian(bytes: seq<byte>): nat {
    if bytes == [] then 0 else bytes[0] + 256 * FromLittleEndian(bytes[1..])
  }

  function Power256(k: nat): (r: nat)
    ensures r > 0
  {
    if k == 0 then 1 else 256 * Power256(k - 1)
  }

  lemma {:induction false} LengthRoundTrip(n: nat, k: nat)
    requires n < Power256(k)
    ensures FromLittleEndian(LittleEndian(n, k)) == n
  {
    if k > 0 {
      LengthRoundTrip(n / 256, k - 1);
      assert LittleEndian(n, k)[1..] == LittleEndian(n / 256, k - 1);
    }
  }

  lemma LowByte(low: byte, rest: nat, bound: nat)
    ensures (low + 256 * rest) % 256 == low && (low + 256 * rest) / 256 == rest
    ensures rest < bound ==> low + 256 * rest < 256 * bound
  {
  }

  lemma {:induction false} BytesRoundTrip(bytes: seq<byte>)
    ensures FromLittleEndian(bytes) < Power256(|bytes|)
    ensures LittleEndian(FromLittleEndian(bytes), |bytes|) == bytes
  {
    if bytes != [] {
      BytesRoundTrip(bytes[1..]);
      LowByte(bytes[0], FromLittleEndian(bytes[1..]), Power256(|bytes| - 1));
      assert bytes == [bytes[0]] + bytes[1..];
    }
  }

  /** A later byte weighs more: the bytes behind the first i count 256 to the power of i times. */
  lemma {:induction false} LaterBytesWeighMore(bytes: seq<byte>, i: nat)
    requires i <= |bytes|
    ensures FromLittleEndian(bytes) == FromLittleEndian(bytes[..i]) + Power256(i) * FromLittleEndian(bytes[i..])
  {
    if i == 0 {
      assert bytes[0..] == bytes;
    } else {
      LaterBytesWeighMore(bytes[1..], i - 1);
      assert bytes[1..][i - 1..] == bytes[i..];
      assert bytes[..i][1..] == bytes[1..][..i - 1];
      Shifted(Power256(i - 1), FromLittleEndian(bytes[i..]));
    }
  }

  lemma Shifted(power: nat, rest: nat)
    ensures 256 * (power * rest) == (256 * power) * rest
  {
  }

  lemma EightBytes()
    ensures Power256(8) == USIZE_MAX + 1
  {
    assert Power256(2) == 65536;
    assert Power256(4) == 4294967296 by {
      assert Power256(3) == 256 * Power256(2);
    }
    assert Power256(6) == 256 * (256 * Power256(4)) by {
      assert Power256(5) == 256 * Power256(4);
    }
    assert Power256(8) == 256 * (256 * Power256(6)) by {
      assert Power256(7) == 256 * Power256(6);
    }
  }

  /** A length as it is written, in eight bytes. */
  function Len(n: nat): (r: seq<byte>)
    ensures |r| == 8
  {
    LittleEndian(n, 8)
  }

  // ----- Frames

  /** A blob behind its length. */
  function Part(blob: seq<byte>): seq<byte> {
    Len(|blob|) + blob
  }

  function Blobs(blobs: seq<seq<byte>>): seq<byte> {
    if blobs == [] then [] else Blobs(blobs[..|blobs| - 1]) + Part(blobs[|blobs| - 1])
  }

  /** The header, the number of blobs, the blobs. */
  function Frame(header: seq<byte>, blobs: seq<seq<byte>>): seq<byte> {
    Part(header) + Len(|blobs|) + Blobs(blobs)
  }

  method WriteFrame(header: seq<byte>, blobs: seq<seq<byte>>) returns (bytes: seq<byte>)
    ensures bytes == Frame(header, blobs)
  {
    bytes := Len(|header|);
    bytes := bytes + header;
    bytes := bytes + Len(|blobs|);
    ghost var head := bytes;
    for i := 0 to |blobs|
      invariant bytes == head + Blobs(blobs[..i])
    {
      assert blobs[..i + 1][..i] == blobs[..i];
      bytes := bytes + Len(|blobs[i]|);
      bytes := bytes + blobs[i];
    }
    assert blobs[..|blobs|] == blobs;
  }

  lemma ShortLen(n: byte)
    ensures Len(n) == [n, 0, 0, 0, 0, 0, 0, 0]
  {
    assert n % 256 == n && n / 256 == 0;
    ZeroBytes(7);
  }

  lemma {:induction false} ZeroBytes(k: nat)
    ensures LittleEndian(0, k) == seq(k, _ => 0)
  {
    if k > 0 {
      ZeroBytes(k - 1);
      assert seq(k, _ => 0) == [0] + seq(k - 1, _ => 0);
    }
  }

  /** A file with a header of one byte and one record of two: length and header, the number of records,
      length and record. */
  lemma SmallFile()
    ensures Frame([7], [[9, 8]]) ==
      [1, 0, 0, 0, 0, 0, 0, 0] + [7] + [1, 0, 0, 0, 0, 0, 0, 0] + [2, 0, 0, 0, 0, 0, 0, 0] + [9, 8]
  {
    ShortLen(1);
    ShortLen(2);
    var blobs: seq<seq<byte>> := [[9, 8]];
    assert blobs[..|blobs| - 1] == [] && blobs[|blobs| - 1] == [9, 8];
    assert Blobs(blobs) == Part([9, 8]);
  }

  /** The bytes hold `part` at the offset. */
  ghost predicate At(bytes: seq<byte>, offset: nat, part: seq<byte>) {
    offset + |part| <= |bytes| && bytes[offset..offset + |part|] == part
  }

  lemma AtBoth(bytes: seq<byte>, offset: nat, a: seq<byte>, b: seq<byte>)
    ensures At(bytes, offset, a + b) <==> At(bytes, offset, a) && At(bytes, offset + |a|, b)
  {
    if offset + |a| + |b| <= |bytes| {
      var whole := bytes[offset..offset + |a| + |b|];
      assert whole[..|a|] == bytes[offset..offset + |a|];
      assert whole[|a|..] == bytes[offset + |a|..offset + |a| + |b|];
      assert (a + b)[..|a|] == a && (a + b)[|a|..] == b;
    }
  }

  lemma AtPrefix(bytes: seq<byte>, offset: nat, a: seq<byte>, b: seq<byte>)
    requires At(bytes, offset, b) && a <= b
    ensures At(bytes, offset, a)
  {
    assert b == a + b[|a|..];
    AtBoth(bytes, offset, a, b[|a|..]);
  }

  lemma LenUnique(bytes: seq<byte>, offset: nat, n: nat, m: nat)
    requires At(bytes, offset, Len(n)) && At(bytes, offset, Len(m)) && n <= USIZE_MAX && m <= USIZE_MAX
    ensures n == m
  {
    EightBytes();
    LengthRoundTrip(n, 8);
    LengthRoundTrip(m, 8);
  }

  /** Only one blob can stand at an offset. */
  lemma PartUnique(bytes: seq<byte>, offset: nat, a: seq<byte>, b: seq<byte>)
    requires |bytes| <= USIZE_MAX && At(bytes, offset, Part(a)) && At(bytes, offset, Part(b))
    ensures a == b
  {
    AtBoth(bytes, offset, Len(|a|), a);
    AtBoth(bytes, offset, Len(|b|), b);
    LenUnique(bytes, offset, |a|, |b|);
  }

  /** A frame is its three parts in a row, and nothing after them. */
  ghost predicate Framed(bytes: seq<byte>, header: seq<byte>, blobs: seq<seq<byte>>) {
    && At(bytes, 0, Part(header)) && At(bytes, |Part(header)|, Len(|blobs|))
    && Ends(bytes, |Part(header)| + 8, blobs)
  }

  /** The blobs fill the bytes from the offset to the end. */
  ghost predicate Ends(bytes: seq<byte>, offset: nat, blobs: seq<seq<byte>>) {
    At(bytes, offset, Blobs(blobs)) && offset + |Blobs(blobs)| == |bytes|
  }

  lemma FrameIsFramed(bytes: seq<byte>, header: seq<byte>, blobs: seq<seq<byte>>)
    ensures bytes == Frame(header, blobs) <==> Framed(bytes, header, blobs)
  {
    var head := Part(header) + Len(|blobs|);
    AtBoth(bytes, 0, Part(header), Len(|blobs|));
    AtBoth(bytes, 0, head, Blobs(blobs));
    assert bytes[0..|bytes|] == bytes;
  }

  // ----- Reading

  method ReadLen(bytes: seq<byte>, offset: nat) returns (r: Result<nat>, offset': nat)
    requires offset <= |bytes| <= USIZE_MAX
    ensures r.Ok? ==> offset' == offset + 8 && r.value <= USIZE_MAX && At(bytes, offset, Len(r.value))
    ensures r.Err? ==> forall n :: !At(bytes, offset, Len(n))
  {
    var end := offset + 8;
    offset' := offset;
    if end > USIZE_MAX {
      return Err(Overflow), offset;
    }
    if end > |bytes| {
      return Err(Truncated), offset;
    }
    var raw := bytes[offset..end];
    EightBytes();
    BytesRoundTrip(raw);
    return Ok(FromLittleEndian(raw)), end;
  }

  lemma PartLen(bytes: seq<byte>, offset: nat, blob: seq<byte>, len: nat)
    requires |bytes| <= USIZE_MAX && len <= USIZE_MAX && At(bytes, offset, Part(blob))
    ensures At(bytes, offset, Len(|blob|)) && offset + 8 + |blob| <= |bytes|
    ensures At(bytes, offset, Len(len)) ==> |blob| == len
  {
    AtBoth(bytes, offset, Len(|blob|), blob);
    if At(bytes, offset, Len(len)) {
      LenUnique(bytes, offset, len, |blob|);
    }
  }

  lemma NoLenNoBlob(bytes: seq<byte>, offset: nat)
    requires |bytes| <= USIZE_MAX && forall n :: !At(bytes, offset, Len(n))
    ensures forall blob :: !At(bytes, offset, Part(blob))
  {
    forall blob
      ensures !At(bytes, offset, Part(blob))
    {
      AtBoth(bytes, offset, Len(|blob|), blob);
    }
  }

  lemma TooLong(bytes: seq<byte>, offset: nat, len: nat)
    requires |bytes| <= USIZE_MAX && At(bytes, offset, Len(len)) && len <= USIZE_MAX && offset + 8 + len > |bytes|
    ensures forall blob :: !At(bytes, offset, Part(blob))
  {
    forall blob
      ensures !At(bytes, offset, Part(blob))
    {
      if At(bytes, offset, Part(blob)) {
        PartLen(bytes, offset, blob, len);
      }
    }
  }

  /** A length and that many bytes. */
  method ReadBlob(bytes: seq<byte>, offset: nat) returns (r: Result<seq<byte>>, offset': nat)
    requires offset <= |bytes| <= USIZE_MAX
    ensures r.Ok? ==> offset' == offset + |Part(r.value)| && At(bytes, offset, Part(r.value))
    ensures r.Err? ==> forall blob :: !At(bytes, offset, Part(blob))
  {
    var len;
    len, offset' := ReadLen(bytes, offset);
    if len.Err? {
      NoLenNoBlob(bytes, offset);
      return Err(len.error), offset;
    }
    var end := offset' + len.value;
    if end > |bytes| {
      TooLong(bytes, offset, len.value);
    }
    if end > USIZE_MAX {
      return Err(Overflow), offset;
    }
    if end > |bytes| {
      return Err(Truncated), offset;
    }
    var blob := bytes[offset'..end];
    AtBoth(bytes, offset, Len(|blob|), blob);
    return Ok(blob), end;
  }

  lemma {:induction false} BlobsLong(blobs: seq<seq<byte>>)
    ensures |Blobs(blobs)| >= 8 * |blobs|
  {
    if blobs != [] {
      BlobsLong(blobs[..|blobs| - 1]);
    }
  }

  /** The blob after the first i follows those in the frame. */
  lemma {:induction false} BlobsFollow(blobs: seq<seq<byte>>, i: nat)
    requires i < |blobs|
    ensures Blobs(blobs[..i]) + Part(blobs[i]) <= Blobs(blobs)
    decreases |blobs|
  {
    var front := blobs[..|blobs| - 1];
    if i < |blobs| - 1 {
      BlobsFollow(front, i);
      assert front[..i] == blobs[..i];
    }
  }

  /** Behind the blobs known so far stands the next one. */
  lemma NextBlob(bytes: seq<byte>, start: nat, known: seq<seq<byte>>, blobs: seq<seq<byte>>)
    requires Ends(bytes, start, blobs) && known <= blobs && |known| < |blobs|
    ensures At(bytes, start + |Blobs(known)|, Part(blobs[|known|]))
  {
    BlobsFollow(blobs, |known|);
    assert blobs[..|known|] == known;
    AtPrefix(bytes, start, Blobs(known) + Part(blobs[|known|]), Blobs(blobs));
    AtBoth(bytes, start, Blobs(known), Part(blobs[|known|]));
  }

  lemma BlobsMore(bytes: seq<byte>, start: nat, known: seq<seq<byte>>, blob: seq<byte>)
    requires At(bytes, start, Blobs(known)) && At(bytes, start + |Blobs(known)|, Part(blob))
    ensures At(bytes, start, Blobs(known + [blob])) && |Blobs(known + [blob])| == |Blobs(known)| + |Part(blob)|
  {
    assert (known + [blob])[..|known|] == known;
    AtBoth(bytes, start, Blobs(known), Part(blob));
  }

  lemma NextIsKnown(bytes: seq<byte>, start: nat, known: seq<seq<byte>>, blob: seq<byte>, blobs: seq<seq<byte>>)
    requires |bytes| <= USIZE_MAX && Ends(bytes, start, blobs) && known <= blobs && |known| < |blobs|
    requires At(bytes, start + |Blobs(known)|, Part(blob))
    ensures known + [blob] <= blobs
  {
    NextBlob(bytes, start, known, blobs);
    PartUnique(bytes, start + |Blobs(known)|, blob, blobs[|known|]);
  }

  /** Read `count` blobs that fill the bytes from the offset to the end. */
  method ReadBlobs(bytes: seq<byte>, start: nat, count: nat) returns (r: Result<seq<seq<byte>>>)
    requires start <= |bytes| <= USIZE_MAX
    ensures r.Ok? ==> |r.value| == count && Ends(bytes, start, r.value)
    ensures r.Err? ==> forall b :: |b| == count ==> !Ends(bytes, start, b)
  {
    var offset := start;
    var blobs: seq<seq<byte>> := [];
    for i := 0 to count
      invariant |blobs| == i && offset == start + |Blobs(blobs)| && At(bytes, start, Blobs(blobs))
      invariant forall b {:trigger Ends(bytes, start, b)} :: |b| == count && Ends(bytes, start, b) ==> blobs <= b
    {
      var blob, end := ReadBlob(bytes, offset);
      forall b | |b| == count && Ends(bytes, start, b)
        ensures blob.Ok? && blobs + [blob.value] <= b
      {
        NextBlob(bytes, start, blobs, b);
        NextIsKnown(bytes, start, blobs, blob.value, b);
      }
      if blob.Err? {
        return Err(blob.error);
      }
      BlobsMore(bytes, start, blobs, blob.value);
      blobs, offset := blobs + [blob.value], end;
    }
    forall b | |b| == count && Ends(bytes, start, b)
      ensures b == blobs
    {
    }
    if offset != |bytes| {
      return Err(TrailingData);
    }
    return Ok(blobs);
  }

  /** Any frame of the bytes starts with this header and count. */
  lemma HeadIsKnown(bytes: seq<byte>, header: seq<byte>, count: nat, h: seq<byte>, b: seq<seq<byte>>)
    requires |bytes| <= USIZE_MAX && count <= USIZE_MAX && Framed(bytes, h, b)
    requires At(bytes, 0, Part(header))
    ensures h == header
    ensures At(bytes, |Part(header)|, Len(count)) ==> |b| == count
    ensures |b| <= (|bytes| - |Part(header)| - 8) / 8
  {
    PartUnique(bytes, 0, header, h);
    BlobsLong(b);
    if At(bytes, |Part(header)|, Len(count)) {
      LenUnique(bytes, |Part(header)|, count, |b|);
    }
  }

  /** A file is read exactly when it frames a header and blobs, and then as those. */
  method ReadFrame(bytes: seq<byte>) returns (r: Result<(seq<byte>, seq<seq<byte>>)>)
    requires |bytes| <= USIZE_MAX
    ensures r.Ok? ==> bytes == Frame(r.value.0, r.value.1)
    ensures r.Err? ==> forall h, b :: bytes != Frame(h, b)
  {
    r := ReadParts(bytes);
    forall h, b
      ensures bytes == Frame(h, b) <==> Framed(bytes, h, b)
    {
      FrameIsFramed(bytes, h, b);
    }
  }

  method ReadParts(bytes: seq<byte>) returns (r: Result<(seq<byte>, seq<seq<byte>>)>)
    requires |bytes| <= USIZE_MAX
    ensures r.Ok? ==> Framed(bytes, r.value.0, r.value.1)
    ensures r.Err? ==> forall h, b :: !Framed(bytes, h, b)
  {
    var header, offset := ReadBlob(bytes, 0);
    if header.Err? {
      return Err(header.error);
    }
    var count, start := ReadLen(bytes, offset);
    forall h, b | Framed(bytes, h, b)
      ensures h == header.value && count.Ok? && |b| == count.value <= (|bytes| - start) / 8
    {
      HeadIsKnown(bytes, header.value, if count.Ok? then count.value else 0, h, b);
    }
    if count.Err? {
      return Err(count.error);
    }
    if count.value > (|bytes| - start) / 8 {
      return Err(TooManyModules);
    }
    var blobs := ReadBlobs(bytes, start, count.value);
    if blobs.Err? {
      return Err(blobs.error);
    }
    return Ok((header.value, blobs.value));
  }

  /** The same bytes frame only one header and one list of blobs. */
  lemma FrameIsUnique(h: seq<byte>, b: seq<seq<byte>>, h': seq<byte>, b': seq<seq<byte>>)
    requires |Frame(h, b)| <= USIZE_MAX && Frame(h, b) == Frame(h', b')
    ensures h == h' && b == b'
  {
    var bytes := Frame(h, b);
    FrameIsFramed(bytes, h, b);
    FrameIsFramed(bytes, h', b');
    BlobsLong(b);
    HeadIsKnown(bytes, h, |b|, h', b');
    SameBlobs(bytes, |Part(h)| + 8, b, b', |b|);
  }

  lemma {:induction false} SameBlobs(bytes: seq<byte>, start: nat, b: seq<seq<byte>>, b': seq<seq<byte>>, n: nat)
    requires |bytes| <= USIZE_MAX && Ends(bytes, start, b) && Ends(bytes, start, b') && n <= |b| == |b'|
    ensures b[..n] <= b'
  {
    if n > 0 {
      var known := b[..n - 1];
      SameBlobs(bytes, start, b, b', n - 1);
      NextBlob(bytes, start, known, b);
      NextIsKnown(bytes, start, known, b[n - 1], b');
      assert b[..n] == known + [b[n - 1]];
    }
  }
}
