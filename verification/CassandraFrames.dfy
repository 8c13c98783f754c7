/** One frame: writing its header, payload and trailer, and taking a whole frame off the input again. */
module CassandraFrames {
  import opened ByteOrder
  import opened Messages
  import opened CassandraHeaders

  datatype FrameResult = NeedMore | Corrupt | Frame(payload: Bytes, selfContained: bool, rest: Bytes)

  /** Where the parts of a frame are found again. */
  lemma {:induction false} Layout(h: Bytes, k: Bytes, body: Bytes, t: Bytes, rest: Bytes)
    requires |k| == 3 && |t| == 4
    ensures var src, b, e := h + k + body + t + rest, |h| + 3, |h| + 3 + |body|;
            && |src| == e + 4 + |rest|
            && src[..|h|] == h && (forall i :: 0 <= i < |h| ==> src[i] == h[i])
            && src[|h|] == k[0] && src[|h| + 1] == k[1] && src[|h| + 2] == k[2]
            && src[b..e] == body
            && src[e] == t[0] && src[e + 1] == t[1] && src[e + 2] == t[2] && src[e + 3] == t[3]
            && src[e + 4..] == rest
  {
  }

  lemma {:induction false} Parts(h: Bytes, k: Bytes, body: Bytes, t: Bytes)
    requires |k| == 3 && |t| == 4
    ensures var f, b := h + k + body + t, |h| + 3;
            && |f| == b + |body| + 4 && f[..|h|] == h && (forall i :: 0 <= i < |h| ==> f[i] == h[i])
            && f[|h|..b] == k && f[b..b + |body|] == body && f[b + |body|..] == t
  {
  }

  // ---- uncompressed ------------------------------------------------------------------------

  function PlainHeader(length: nat, selfContained: bool): nat {
    if selfContained then BitOr(length, limit) else length
  }

  function PlainFrame(c: Checksums, payload: Bytes, selfContained: bool): Bytes {
    var h := Le3(PlainHeader(|payload|, selfContained));
    h + Le3(c.crc24(h)) + payload + Le4(c.crc32(payload))
  }

  lemma {:induction false} PlainHeaderIsSum(length: nat, selfContained: bool)
    requires length < limit
    ensures PlainHeader(length, selfContained) == length + if selfContained then limit else 0
  {
    FlagAbove(length);
  }

  /** A plain frame on the wire: length and flag in three bytes, their checksum, the payload, its checksum. */
  lemma {:induction false} PlainFrameLayout(c: Checksums, payload: Bytes, selfContained: bool)
    requires |payload| < 0x2_0000
    ensures var f, n := PlainFrame(c, payload, selfContained), |payload| + if selfContained then 0x2_0000 else 0;
            && |f| == |payload| + 10 && f[6..6 + |payload|] == payload
            && f[..3] == Le3(n) && f[3..6] == Le3(c.crc24(f[..3])) && f[6 + |payload|..] == Le4(c.crc32(payload))
  {
    PlainHeaderIsSum(|payload|, selfContained);
    var h := Le3(PlainHeader(|payload|, selfContained));
    Parts(h, Le3(c.crc24(h)), payload, Le4(c.crc32(payload)));
  }

  /** `check_size` looks at four bytes where `decode_frame` looks at six; the length is the same. */
  lemma {:induction false} LengthInThreeBytes(a: Byte, b: Byte, c: Byte, d: Byte)
    ensures FromLe4(a, b, c, d) % limit == FromLe3(a, b, c) % limit
  {
    var low := FromLe3(a, b, c);
    Remainder(low, low / limit, low % limit);
    Remainder(FromLe4(a, b, c, d), low / limit + 0x80 * d, low % limit);
  }

  lemma {:induction false} Remainder(x: int, q: int, r: int)
    requires 0 <= r < limit && x == limit * q + r
    ensures x % limit == r
  {
  }

  /** `check_size` followed by the frame half of `decode_frame`. */
  function ParsePlain(c: Checksums, src: Bytes): (r: FrameResult)
    ensures r.Frame? ==> |r.rest| + |r.payload| + 10 == |src|
  {
    if |src| < 6 then NeedMore
    else
      var length := FromLe4(src[0], src[1], src[2], src[3]) % limit;
      if |src| < length + 10 then NeedMore
      else
        var header := FromLe3(src[0], src[1], src[2]);
        var n := header % limit;
        LengthInThreeBytes(src[0], src[1], src[2], src[3]);
        var payload := src[6..n + 6];
        if FromLe3(src[3], src[4], src[5]) != c.crc24(src[..3]) then Corrupt
        else if FromLe4(src[n + 6], src[n + 7], src[n + 8], src[n + 9]) != c.crc32(payload) then Corrupt
        else Frame(payload, header / limit % 2 == 1, src[length + 10..])
  }

  /** Once all of it is there a frame is taken exactly if both its checksums are right. */
  lemma {:induction false} PlainAcceptedExactly(c: Checksums, src: Bytes)
    requires |src| >= 6 && |src| >= FromLe3(src[0], src[1], src[2]) % 0x2_0000 + 10
    ensures var n := FromLe3(src[0], src[1], src[2]) % 0x2_0000;
            && !ParsePlain(c, src).NeedMore?
            && (ParsePlain(c, src).Frame? <==>
                  && c.crc24(src[..3]) == FromLe3(src[3], src[4], src[5])
                  && c.crc32(src[6..n + 6]) == FromLe4(src[n + 6], src[n + 7], src[n + 8], src[n + 9]))
  {
    LengthInThreeBytes(src[0], src[1], src[2], src[3]);
  }

  lemma {:induction false} FlagAdded(field: nat, k: nat, flag: nat)
    requires flag == Pow2(k) && field < flag
    ensures BitOr(field, flag) == field + flag
  {
    BitOrDisjoint(field, 1, k);
  }

  lemma {:induction false} FlagAbove(length: nat)
    requires length < limit
    ensures BitOr(length, limit) == length + limit
  {
    Powers();
    FlagAdded(length, 17, limit);
  }

  lemma {:induction false} TwoFields(length: nat, flag: nat)
    requires length < limit && flag <= 1
    ensures var h := length + flag * limit; h < 2 * limit && h % limit == length && h / limit % 2 == flag
  {
  }

  /** The length and the flag never overlap, for every length the 17-bit field can hold. */
  lemma {:induction false} PlainHeaderFields(length: nat, selfContained: bool)
    requires length < limit
    ensures PlainHeader(length, selfContained) < 0x100_0000
    ensures PlainHeader(length, selfContained) % limit == length
    ensures PlainHeader(length, selfContained) / limit % 2 == 1 <==> selfContained
  {
    FlagAbove(length);
    TwoFields(length, if selfContained then 1 else 0);
  }

  lemma {:induction false} ParsePlainFrame(c: Checksums, payload: Bytes, selfContained: bool, rest: Bytes)
    requires |payload| < limit
    ensures ParsePlain(c, PlainFrame(c, payload, selfContained) + rest) == Frame(payload, selfContained, rest)
  {
    var header := PlainHeader(|payload|, selfContained);
    var h := Le3(header);
    var k, t := Le3(c.crc24(h)), Le4(c.crc32(payload));
    var src := h + k + payload + t + rest;
    PlainHeaderFields(|payload|, selfContained);
    Le3RoundTrip(header);
    Le3RoundTrip(c.crc24(h));
    Le4RoundTrip(c.crc32(payload));
    Layout(h, k, payload, t, rest);
    LengthInThreeBytes(src[0], src[1], src[2], src[3]);
  }

  lemma {:induction false} ParsePlainStable(c: Checksums, a: Bytes, b: Bytes)
    ensures ParsePlain(c, a).Corrupt? ==> ParsePlain(c, a + b).Corrupt?
    ensures ParsePlain(c, a).Frame? ==> ParsePlain(c, a + b) == ParsePlain(c, a).(rest := ParsePlain(c, a).rest + b)
  {
    if |a| >= 6 {
      var length := FromLe4(a[0], a[1], a[2], a[3]) % limit;
      LengthInThreeBytes(a[0], a[1], a[2], a[3]);
      if |a| >= length + 10 {
        assert (a + b)[..3] == a[..3];
        assert (a + b)[6..length + 6] == a[6..length + 6];
        assert (a + b)[length + 10..] == a[length + 10..] + b;
      }
    }
  }

  // ---- compressed ----------------------------------------------------------------------------

  /** The block to send and the uncompressed length to announce; 0 announces a raw block. */
  function Block(z: Lz4, payload: Bytes): (Bytes, nat) {
    if |z.compress(payload)| > |payload| then (payload, 0) else (z.compress(payload), |payload|)
  }

  function CompressedHeader(compressed: nat, uncompressed: nat, selfContained: bool): nat {
    var header := BitOr(compressed, uncompressed * limit);
    if selfContained then BitOr(header, 0x4_0000_0000) else header
  }

  function CompressedFrame(c: Checksums, z: Lz4, payload: Bytes, selfContained: bool): Bytes {
    var (block, uncompressed) := Block(z, payload);
    var h := Le5(CompressedHeader(|block|, uncompressed, selfContained));
    h + Le3(c.crc24(h)) + block + Le4(c.crc32(block))
  }

  lemma {:induction false} HeaderIsSum(compressed: nat, uncompressed: nat, selfContained: bool)
    requires compressed < limit && uncompressed < limit
    ensures CompressedHeader(compressed, uncompressed, selfContained)
         == compressed + uncompressed * 0x2_0000 + if selfContained then 0x4_0000_0000 else 0
  {
    Powers();
    BitOrDisjoint(compressed, uncompressed, 17);
    BitOrDisjoint(compressed + uncompressed * limit, 1, 34);
  }

  /** A compressed frame: both lengths and the flag in five bytes; a block that would grow is sent raw. */
  lemma {:induction false} CompressedFrameLayout(c: Checksums, z: Lz4, payload: Bytes, selfContained: bool)
    requires |payload| < 0x2_0000
    ensures var raw := |z.compress(payload)| > |payload|;
            var f, block := CompressedFrame(c, z, payload, selfContained),
                            if raw then payload else z.compress(payload);
            var n := |block| + (if raw then 0 else |payload|) * 0x2_0000 + if selfContained then 0x4_0000_0000 else 0;
            && |f| == |block| + 12 && f[8..8 + |block|] == block && f[..5] == Le5(n)
            && f[5..8] == Le3(c.crc24(f[..5])) && f[8 + |block|..] == Le4(c.crc32(block))
  {
    var (block, u) := Block(z, payload);
    HeaderIsSum(|block|, u, selfContained);
    var h := Le5(CompressedHeader(|block|, u, selfContained));
    Parts(h, Le3(c.crc24(h)), block, Le4(c.crc32(block)));
  }

  function ParseCompressed(c: Checksums, z: Lz4, src: Bytes): (r: FrameResult)
    ensures r.Frame? ==> |r.rest| + 12 <= |src|
  {
    if |src| < 8 then NeedMore
    else
      var header := FromLe5(src[0], src[1], src[2], src[3], src[4]);
      var length := header % limit;
      if |src| < length + 12 then NeedMore
      else
        var block := src[8..length + 8];
        if FromLe3(src[5], src[6], src[7]) != c.crc24(src[..5]) then Corrupt
        else if FromLe4(src[length + 8], src[length + 9], src[length + 10], src[length + 11]) != c.crc32(block)
        then Corrupt
        else
          var uncompressed := header / limit % limit;
          var payload := if uncompressed == 0 then Some(block) else z.decompress(block, uncompressed);
          if payload.None? then Corrupt
          else Frame(payload.value, header / 0x4_0000_0000 % 2 == 1, src[length + 12..])
  }

  /** The same, and the block must decompress to the length announced, unless that is zero. */
  lemma {:induction false} CompressedAcceptedExactly(c: Checksums, z: Lz4, src: Bytes)
    requires |src| >= 8 && |src| >= FromLe5(src[0], src[1], src[2], src[3], src[4]) % 0x2_0000 + 12
    ensures var h := FromLe5(src[0], src[1], src[2], src[3], src[4]);
            var n, u := h % 0x2_0000, h / 0x2_0000 % 0x2_0000;
            && !ParseCompressed(c, z, src).NeedMore?
            && (ParseCompressed(c, z, src).Frame? <==>
                  && c.crc24(src[..5]) == FromLe3(src[5], src[6], src[7])
                  && c.crc32(src[8..n + 8]) == FromLe4(src[n + 8], src[n + 9], src[n + 10], src[n + 11])
                  && (u == 0 || z.decompress(src[8..n + 8], u).Some?))
  {
  }

  lemma {:induction false} SumFields(a: nat, b: nat, c: nat)
    requires a < limit && b < limit && c < 2
    ensures var h := a + b * limit + c * 0x4_0000_0000;
            && h < 0x100_0000_0000 && h % limit == a && h / limit % limit == b && h / 0x4_0000_0000 == c
  {
    var q := b + c * limit;
    assert a + b * limit + c * 0x4_0000_0000 == a + q * limit;
  }

  /** Both 17-bit lengths, the flag and the checksum behind them keep out of each other's way. */
  lemma {:induction false} CompressedHeaderFields(compressed: nat, uncompressed: nat, selfContained: bool)
    requires compressed < limit && uncompressed < limit
    ensures var h := CompressedHeader(compressed, uncompressed, selfContained);
            && h < 0x100_0000_0000
            && h % limit == compressed
            && h / limit % limit == uncompressed
            && (h / 0x4_0000_0000 % 2 == 1 <==> selfContained)
  {
    HeaderIsSum(compressed, uncompressed, selfContained);
    SumFields(compressed, uncompressed, if selfContained then 1 else 0);
  }

  /** Raw or compressed, the block fits its field and leads back to the payload. */
  lemma {:induction false} BlockFits(z: Lz4, payload: Bytes)
    requires Lawful(z) && |payload| < limit
    ensures var (block, u) := Block(z, payload);
            && |block| <= |payload| && u < limit
            && (if u == 0 then Some(block) else z.decompress(block, u)) == Some(payload)
  {
    if |z.compress(payload)| <= |payload| {
      assert z.decompress(z.compress(payload), |payload|) == Some(payload);
      if payload == [] {
        assert z.compress(payload) == [];
      }
    }
  }

  lemma {:induction false} ParseBlock(c: Checksums, z: Lz4, header: nat, block: Bytes, payload: Bytes, rest: Bytes)
    requires header < 0x100_0000_0000 && header % limit == |block|
    requires var u := header / limit % limit;
             (if u == 0 then Some(block) else z.decompress(block, u)) == Some(payload)
    ensures var h := Le5(header);
            ParseCompressed(c, z, h + Le3(c.crc24(h)) + block + Le4(c.crc32(block)) + rest)
            == Frame(payload, header / 0x4_0000_0000 % 2 == 1, rest)
  {
    var h := Le5(header);
    Le5RoundTrip(header);
    Le3RoundTrip(c.crc24(h));
    Le4RoundTrip(c.crc32(block));
    Layout(h, Le3(c.crc24(h)), block, Le4(c.crc32(block)), rest);
  }

  lemma {:induction false} ParseCompressedFrame(c: Checksums, z: Lz4, payload: Bytes, selfContained: bool, rest: Bytes)
    requires Lawful(z) && |payload| < limit
    ensures ParseCompressed(c, z, CompressedFrame(c, z, payload, selfContained) + rest)
         == Frame(payload, selfContained, rest)
  {
    BlockFits(z, payload);
    var (block, u) := Block(z, payload);
    CompressedHeaderFields(|block|, u, selfContained);
    ParseBlock(c, z, CompressedHeader(|block|, u, selfContained), block, payload, rest);
  }

  lemma {:induction false} ParseCompressedStable(c: Checksums, z: Lz4, a: Bytes, b: Bytes)
    ensures ParseCompressed(c, z, a).Corrupt? ==> ParseCompressed(c, z, a + b).Corrupt?
    ensures ParseCompressed(c, z, a).Frame? ==>
      ParseCompressed(c, z, a + b) == ParseCompressed(c, z, a).(rest := ParseCompressed(c, z, a).rest + b)
  {
    if |a| >= 8 {
      var length := FromLe5(a[0], a[1], a[2], a[3], a[4]) % limit;
      if |a| >= length + 12 {
        assert (a + b)[..5] == a[..5];
        assert (a + b)[8..length + 8] == a[8..length + 8];
        assert (a + b)[length + 12..] == a[length + 12..] + b;
      }
    }
  }

  // ---- either --------------------------------------------------------------------------------

  ghost predicate Usable(codec: Codec) {
    codec.Compressed? ==> Lawful(codec.lz4)
  }

  function FrameBytes(codec: Codec, payload: Bytes, selfContained: bool): Bytes {
    match codec
    case Plain(c) => PlainFrame(c, payload, selfContained)
    case Compressed(c, z) => CompressedFrame(c, z, payload, selfContained)
  }

  function Parse(codec: Codec, src: Bytes): (r: FrameResult)
    ensures r.Frame? ==> |r.rest| < |src|
  {
    match codec
    case Plain(c) => ParsePlain(c, src)
    case Compressed(c, z) => ParseCompressed(c, z, src)
  }

  /** Every frame with a payload below the limit parses back, whatever follows it on the wire. */
  lemma {:induction false} ParseFrame(codec: Codec, payload: Bytes, selfContained: bool, rest: Bytes)
    requires Usable(codec) && |payload| < limit
    ensures Parse(codec, FrameBytes(codec, payload, selfContained) + rest) == Frame(payload, selfContained, rest)
  {
    match codec
    case Plain(c) => ParsePlainFrame(c, payload, selfContained, rest);
    case Compressed(c, z) => ParseCompressedFrame(c, z, payload, selfContained, rest);
  }

  /** Bytes that arrive later never change what a frame that is already complete parses to. */
  lemma {:induction false} ParseStable(codec: Codec, a: Bytes, b: Bytes)
    ensures Parse(codec, a).Corrupt? ==> Parse(codec, a + b).Corrupt?
    ensures Parse(codec, a).Frame? ==> Parse(codec, a + b) == Parse(codec, a).(rest := Parse(codec, a).rest + b)
  {
    match codec
    case Plain(c) => ParsePlainStable(c, a, b);
    case Compressed(c, z) => ParseCompressedStable(c, z, a, b);
  }
}
