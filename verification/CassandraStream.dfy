/** A byte stream of frames: decoding it in pieces, and encoding and decoding whole envelopes. */
module CassandraStream {
  import opened ByteOrder
  import opened Messages
  import opened CassandraHeaders
  import opened CassandraFrames
  import opened CassandraEnvelopes

  /** What has been decoded: envelopes so far, and either a state to go on from or the end of the connection. */
  datatype Decoding =
    | Decoding(envelopes: seq<Bytes>, state: DecoderState, left: Bytes)
    | Failed(envelopes: seq<Bytes>)

  function Prepend(list: seq<Bytes>, d: Decoding): Decoding {
    match d
    case Decoding(es, st, left) => Decoding(list + es, st, left)
    case Failed(es) => Failed(list + es)
  }

  /** Calls of `decode` on the input until it asks for more bytes or fails. */
  function Decode(codec: Codec, st: DecoderState, src: Bytes): Decoding
    decreases |src|
  {
    match Parse(codec, src)
    case NeedMore => Decoding([], st, src)
    case Corrupt => Failed([])
    case Frame(payload, selfContained, rest) =>
      var (st', es) := Extract(st, payload, selfContained);
      if es.Parsed? then Prepend(es.list, Decode(codec, st', rest)) else Failed([])
  }

  lemma {:induction false} PrependPrepend(a: seq<Bytes>, b: seq<Bytes>, d: Decoding)
    ensures Prepend(a, Prepend(b, d)) == Prepend(a + b, d)
    ensures Prepend([], d) == d
  {
    assert a + b + d.envelopes == a + (b + d.envelopes);
    assert [] + d.envelopes == d.envelopes;
  }

  /** Goes on from `d` with more bytes. */
  function Continue(codec: Codec, d: Decoding, more: Bytes): Decoding {
    match d
    case Failed(_) => d
    case Decoding(es, st, left) => Prepend(es, Decode(codec, st, left + more))
  }

  lemma {:induction false} ContinuePrepend(codec: Codec, list: seq<Bytes>, d: Decoding, more: Bytes)
    ensures Continue(codec, Prepend(list, d), more) == Prepend(list, Continue(codec, d, more))
  {
    if d.Decoding? {
      PrependPrepend(list, d.envelopes, Decode(codec, d.state, d.left + more));
    }
  }

  /** Decoding part of the input first and the rest later is decoding it all. */
  lemma {:induction false} DecodeResumes(codec: Codec, st: DecoderState, a: Bytes, b: Bytes)
    ensures Decode(codec, st, a + b) == Continue(codec, Decode(codec, st, a), b)
    decreases |a|
  {
    ParseStable(codec, a, b);
    match Parse(codec, a)
    case NeedMore =>
      PrependPrepend([], [], Decode(codec, st, a + b));
    case Corrupt =>
    case Frame(payload, selfContained, rest) =>
      var (st', es) := Extract(st, payload, selfContained);
      if es.Parsed? {
        DecodeResumes(codec, st', rest, b);
        ContinuePrepend(codec, es.list, Decode(codec, st', rest), b);
      }
  }

  function Flatten(chunks: seq<Bytes>): Bytes {
    if chunks == [] then [] else Flatten(chunks[..|chunks| - 1]) + chunks[|chunks| - 1]
  }

  /** The decoder fed with one chunk of the stream after the other. */
  function Feed(codec: Codec, chunks: seq<Bytes>): Decoding {
    if chunks == [] then Decoding([], clean, [])
    else Continue(codec, Feed(codec, chunks[..|chunks| - 1]), chunks[|chunks| - 1])
  }

  /** How the byte stream is cut into chunks makes no difference, for any bytes whatsoever. */
  lemma {:induction false} ChunkingIrrelevant(codec: Codec, chunks: seq<Bytes>)
    ensures Feed(codec, chunks) == Decode(codec, clean, Flatten(chunks))
  {
    if chunks == [] {
      assert Parse(codec, []).NeedMore?;
    } else {
      ChunkingIrrelevant(codec, chunks[..|chunks| - 1]);
      DecodeResumes(codec, clean, Flatten(chunks[..|chunks| - 1]), chunks[|chunks| - 1]);
    }
  }

  // ---- frames on the wire ------------------------------------------------------------------------

  function Wire(codec: Codec, frames: seq<FrameItem>): Bytes {
    if frames == [] then []
    else FrameBytes(codec, frames[0].payload, frames[0].selfContained) + Wire(codec, frames[1..])
  }

  predicate Fit(frames: seq<FrameItem>) {
    forall i :: 0 <= i < |frames| ==> |frames[i].payload| < limit
  }

  function Then(codec: Codec, r: Outcome, rest: Bytes): Decoding {
    match r
    case Ran(es, st) => Prepend(es, Decode(codec, st, rest))
    case Broken(es) => Failed(es)
  }

  lemma {:induction false} ThenBefore(codec: Codec, list: seq<Bytes>, r: Outcome, rest: Bytes)
    ensures Then(codec, Before(list, r), rest) == Prepend(list, Then(codec, r, rest))
  {
    if r.Ran? {
      PrependPrepend(list, r.envelopes, Decode(codec, r.state, rest));
    }
  }

  lemma {:induction false} DecodeFrame(codec: Codec, st: DecoderState, f: FrameItem, rest: Bytes)
    requires Usable(codec) && |f.payload| < limit
    ensures var (st', es) := Extract(st, f.payload, f.selfContained);
            Decode(codec, st, FrameBytes(codec, f.payload, f.selfContained) + rest)
            == if es.Parsed? then Prepend(es.list, Decode(codec, st', rest)) else Failed([])
  {
    ParseFrame(codec, f.payload, f.selfContained, rest);
  }

  lemma {:induction false} WireFirst(codec: Codec, frames: seq<FrameItem>, rest: Bytes)
    requires frames != []
    ensures Wire(codec, frames) + rest
         == FrameBytes(codec, frames[0].payload, frames[0].selfContained) + (Wire(codec, frames[1..]) + rest)
  {
  }

  lemma {:induction false} DecodeWireStep(codec: Codec, st: DecoderState, frames: seq<FrameItem>, rest: Bytes,
                                          d: Decoding)
    requires Usable(codec) && Fit(frames) && frames != []
    requires var (st', es) := Extract(st, frames[0].payload, frames[0].selfContained);
             es.Parsed? ==>
               && d == Decode(codec, st', Wire(codec, frames[1..]) + rest)
               && d == Then(codec, RunFrames(st', frames[1..]), rest)
    ensures Decode(codec, st, Wire(codec, frames) + rest) == Then(codec, RunFrames(st, frames), rest)
  {
    WireFirst(codec, frames, rest);
    DecodeFrame(codec, st, frames[0], Wire(codec, frames[1..]) + rest);
    var (st', es) := Extract(st, frames[0].payload, frames[0].selfContained);
    if es.Parsed? {
      ThenBefore(codec, es.list, RunFrames(st', frames[1..]), rest);
    }
  }

  /** Frames written to the wire are decoded as frames, whatever bytes come behind them. */
  lemma {:induction false} DecodeWire(codec: Codec, st: DecoderState, frames: seq<FrameItem>, rest: Bytes)
    requires Usable(codec) && Fit(frames)
    ensures Decode(codec, st, Wire(codec, frames) + rest) == Then(codec, RunFrames(st, frames), rest)
    decreases |frames|
  {
    if frames == [] {
      assert Wire(codec, frames) + rest == rest;
      PrependPrepend([], [], Decode(codec, st, rest));
    } else {
      var (st', es) := Extract(st, frames[0].payload, frames[0].selfContained);
      DecodeWire(codec, st', frames[1..], rest);
      DecodeWireStep(codec, st, frames, rest, Decode(codec, st', Wire(codec, frames[1..]) + rest));
    }
  }

  // ---- the encoder --------------------------------------------------------------------------------

  /** The envelope is too long, or may compress to too long a block, for one self-contained frame. */
  predicate Splits(codec: Codec, n: nat) {
    match codec
    case Plain(_) => n > limit
    case Compressed(_, z) => z.maxOutput(n) > limit
  }

  function Frames(codec: Codec, e: Bytes): seq<FrameItem> {
    if Splits(codec, |e|) then Fragments(e) else [FrameItem(e, true)]
  }

  function Encode(codec: Codec, e: Bytes): Bytes {
    Wire(codec, Frames(codec, e))
  }

  /**
   * Exactly the envelope lengths that survive: a self-contained frame must stay below the limit; a
   * split envelope needs a second fragment, and from the third on a last fragment above 9 bytes.
   */
  predicate GoodLength(codec: Codec, n: nat) {
    match codec
    case Plain(_) => n < 0x2_0000 || (n > 0x2_0000 && FragmentsFit(n))
    case Compressed(_, z) => z.maxOutput(n) <= 0x2_0000 || (n >= 0x2_0000 && FragmentsFit(n))
  }

  /** Two fragments, or a last one of more than 9 bytes. */
  predicate FragmentsFit(n: nat) {
    n <= 0x3_FFFE || (n - 1) % 0x1_FFFF >= 9
  }

  /** An envelope goes out whole, in one self-contained frame, exactly if it, or what it may compress to, is small. */
  lemma {:induction false} EncodedWhole(codec: Codec, e: Bytes)
    requires match codec case Plain(_) => |e| <= 0x2_0000 case Compressed(_, z) => z.maxOutput(|e|) <= 0x2_0000
    ensures codec.Plain? ==> Encode(codec, e) == PlainFrame(codec.sums, e, true)
    ensures codec.Compressed? ==> Encode(codec, e) == CompressedFrame(codec.sums, codec.lz4, e, true)
  {
    var f := FrameItem(e, true);
    assert [f][1..] == [];
    assert Wire(codec, [f]) == FrameBytes(codec, e, true) + [];
  }

  /** Any other goes out in pieces of 2^17 - 1 bytes and a last one, none of them self-contained. */
  lemma {:induction false} EncodedInPieces(codec: Codec, e: Bytes, i: nat)
    requires match codec case Plain(_) => |e| > 0x2_0000 case Compressed(_, z) => z.maxOutput(|e|) > 0x2_0000
    requires i < |Fragments(e)|
    ensures Encode(codec, e) == Wire(codec, Fragments(e))
    ensures var from, to := i * 0x1_FFFF, Min((i + 1) * 0x1_FFFF, |e|);
            from < to && Fragments(e)[i] == FrameItem(e[from..to], false)
    ensures (|Fragments(e)| - 1) * 0x1_FFFF < |e| <= |Fragments(e)| * 0x1_FFFF
  {
    FragmentAt(e, i);
  }

  lemma {:induction false} RunEncoded(codec: Codec, e: Bytes)
    requires Usable(codec) && WellFormed(e) && GoodLength(codec, |e|)
    ensures Fit(Frames(codec, e)) && RunFrames(clean, Frames(codec, e)) == Ran([e], clean)
  {
    if Splits(codec, |e|) {
      RunFragments(e);
    } else {
      RunSelfContained(clean, e);
    }
  }

  /** An envelope of a good length comes out of the decoder as it went into the encoder. */
  lemma {:induction false} DecodeEncoded(codec: Codec, e: Bytes, rest: Bytes)
    requires Usable(codec) && WellFormed(e) && GoodLength(codec, |e|)
    ensures Decode(codec, clean, Encode(codec, e) + rest) == Prepend([e], Decode(codec, clean, rest))
  {
    RunEncoded(codec, e);
    DecodeWire(codec, clean, Frames(codec, e), rest);
  }

  // ---- streams of envelopes ----------------------------------------------------------------------

  function EncodeAll(codec: Codec, es: seq<Bytes>): Bytes {
    if es == [] then [] else Encode(codec, es[0]) + EncodeAll(codec, es[1..])
  }

  ghost predicate AllGood(codec: Codec, es: seq<Bytes>) {
    forall i :: 0 <= i < |es| ==> WellFormed(es[i]) && GoodLength(codec, |es[i]|)
  }

  lemma {:induction false} DecodeNothing(codec: Codec, st: DecoderState)
    ensures Decode(codec, st, []) == Decoding([], st, [])
  {
    assert Parse(codec, []).NeedMore?;
  }

  lemma {:induction false} PrependFirst(es: seq<Bytes>)
    requires es != []
    ensures Prepend([es[0]], Decoding(es[1..], clean, [])) == Decoding(es, clean, [])
  {
    assert [es[0]] + es[1..] == es;
  }

  lemma {:induction false} DecodeEncodedAll(codec: Codec, es: seq<Bytes>)
    requires Usable(codec) && AllGood(codec, es)
    ensures Decode(codec, clean, EncodeAll(codec, es)) == Decoding(es, clean, [])
    decreases |es|
  {
    if es == [] {
      DecodeNothing(codec, clean);
    } else {
      DecodeEncodedAll(codec, es[1..]);
      DecodeEncoded(codec, es[0], EncodeAll(codec, es[1..]));
      PrependFirst(es);
    }
  }

  /** Any sequence of envelopes of good lengths, over any chunking of the bytes, arrives whole and in order. */
  lemma {:induction false} StreamRoundTrip(codec: Codec, es: seq<Bytes>, chunks: seq<Bytes>)
    requires Usable(codec) && AllGood(codec, es) && Flatten(chunks) == EncodeAll(codec, es)
    ensures Feed(codec, chunks) == Decoding(es, clean, [])
  {
    ChunkingIrrelevant(codec, chunks);
    DecodeEncodedAll(codec, es);
  }

  // ---- exactly the good lengths -------------------------------------------------------------------

  function TotalBytes(es: seq<Bytes>): nat {
    if es == [] then 0 else |es[0]| + TotalBytes(es[1..])
  }

  lemma {:induction false} TotalConcat(a: seq<Bytes>, b: seq<Bytes>)
    ensures TotalBytes(a + b) == TotalBytes(a) + TotalBytes(b)
    decreases |a|
  {
    if a == [] {
      assert a + b == b;
    } else {
      TotalConcat(a[1..], b);
      assert (a + b)[1..] == a[1..] + b;
    }
  }

  lemma {:induction false} EnvelopesFillPayload(payload: Bytes)
    requires ParseEnvelopes(payload).Parsed?
    ensures TotalBytes(ParseEnvelopes(payload).list) == |payload|
    decreases |payload|
  {
    if payload != [] {
      var n := envelopeHeader + AsUsize(BodyLength(payload));
      EnvelopesFillPayload(payload[n..]);
      var list := ParseEnvelopes(payload[n..]).list;
      assert ([payload[..n]] + list)[1..] == list;
    }
  }

  /** Uncompressed, every byte of an envelope was a byte of the input, and each frame costs ten more. */
  lemma {:induction false} FramesCostBytes(c: Checksums, st: DecoderState, src: Bytes)
    ensures var d := Decode(Plain(c), st, src);
            d.envelopes != [] ==> TotalBytes(d.envelopes) + 10 <= |st.buffer| + |src|
    decreases |src|
  {
    match ParsePlain(c, src)
    case NeedMore =>
    case Corrupt =>
    case Frame(payload, selfContained, rest) =>
      var (st', es) := Extract(st, payload, selfContained);
      if es.Parsed? {
        FramesCostBytes(c, st', rest);
        ExtractKeepsBytes(st, payload, selfContained);
        TotalConcat(es.list, Decode(Plain(c), st', rest).envelopes);
      }
  }

  lemma {:induction false} ExtractKeepsBytes(st: DecoderState, payload: Bytes, selfContained: bool)
    ensures var (st', es) := Extract(st, payload, selfContained);
            es.Parsed? ==> TotalBytes(es.list) + |st'.buffer| == |st.buffer| + |payload|
  {
    var (st', es) := Extract(st, payload, selfContained);
    if selfContained && es.Parsed? {
      EnvelopesFillPayload(payload);
    } else if es.Parsed? && st.expected.Some? && |st.buffer + payload| >= st.expected.value {
      EnvelopesFillPayload(st.buffer + payload);
    }
  }

  lemma {:induction false} TotalOne(e: Bytes)
    ensures TotalBytes([e]) == |e|
  {
    assert [e][1..] == [];
  }

  /** An envelope of exactly the limit gets a header that announces an empty payload. */
  lemma {:induction false} LimitHeader(c: Checksums, e: Bytes)
    requires |e| == limit
    ensures var r := ParsePlain(c, PlainFrame(c, e, true));
            !r.NeedMore? && (r.Frame? ==> r.payload == [] && r.selfContained && |r.rest| == limit)
  {
    BitOrSelf(limit);
    var h := Le3(limit);
    Le3RoundTrip(limit);
    Layout(h, Le3(c.crc24(h)), e, Le4(c.crc32(e)), []);
    var src := PlainFrame(c, e, true);
    assert src == h + Le3(c.crc24(h)) + e + Le4(c.crc32(e)) + [];
    LengthInThreeBytes(src[0], src[1], src[2], src[3]);
  }

  /** Unless its first four bytes happen to be the checksum of nothing, the frame is rejected. */
  lemma {:induction false} LimitCorrupt(c: Checksums, e: Bytes)
    requires |e| == limit && FromLe4(e[0], e[1], e[2], e[3]) != c.crc32([])
    ensures ParsePlain(c, PlainFrame(c, e, true)).Corrupt?
  {
    BitOrSelf(limit);
    var h := Le3(limit);
    Le3RoundTrip(limit);
    Layout(h, Le3(c.crc24(h)), e, Le4(c.crc32(e)), []);
    var src := PlainFrame(c, e, true);
    assert src == h + Le3(c.crc24(h)) + e + Le4(c.crc32(e)) + [];
    LengthInThreeBytes(src[0], src[1], src[2], src[3]);
    assert forall i :: 0 <= i < 4 ==> src[6 + i] == src[6..6 + |e|][i] == e[i];
    assert src[6..6] == [];
  }

  /** So its bytes are taken for further frames, too few to hold it, and it is lost. */
  lemma {:induction false} LimitIsLost(c: Checksums, e: Bytes)
    requires |e| == limit
    ensures Decode(Plain(c), clean, PlainFrame(c, e, true)) != Decoding([e], clean, [])
  {
    LimitHeader(c, e);
    var r := ParsePlain(c, PlainFrame(c, e, true));
    if r.Frame? {
      var d := Decode(Plain(c), clean, r.rest);
      FramesCostBytes(c, clean, r.rest);
      PrependPrepend([], [], d);
      TotalOne(e);
    }
  }

  lemma {:induction false} BadLengthBreaks(codec: Codec, e: Bytes)
    requires Usable(codec) && WellFormed(e) && Splits(codec, |e|) && !GoodLength(codec, |e|)
    ensures Decode(codec, clean, Encode(codec, e)) != Decoding([e], clean, [])
  {
    RunFragments(e);
    DecodeWire(codec, clean, Fragments(e), []);
    assert Encode(codec, e) + [] == Encode(codec, e);
    if |e| <= maxFragment {
      DecodeNothing(codec, Partial(|e|, e));
    }
  }

  /** Only without compression can an envelope of the limit be sent unsplit. */
  lemma {:induction false} UnsplitAtLimit(codec: Codec, e: Bytes)
    requires Usable(codec) && !Splits(codec, |e|) && !GoodLength(codec, |e|)
    ensures codec.Plain? && |e| == limit && Encode(codec, e) == PlainFrame(codec.sums, e, true)
  {
    var f := FrameItem(e, true);
    assert [f][1..] == [];
    assert Wire(codec, [f]) == FrameBytes(codec, e, true) + [];
  }

  lemma {:induction false} GoodLengthSurvives(codec: Codec, e: Bytes)
    requires Usable(codec) && WellFormed(e) && GoodLength(codec, |e|)
    ensures Decode(codec, clean, Encode(codec, e)) == Decoding([e], clean, [])
  {
    NothingAppended(Encode(codec, e));
    DecodedAlone(codec, e, Encode(codec, e) + []);
  }

  lemma {:induction false} DecodedAlone(codec: Codec, e: Bytes, src: Bytes)
    requires Usable(codec) && WellFormed(e) && GoodLength(codec, |e|) && src == Encode(codec, e) + []
    ensures Decode(codec, clean, src) == Decoding([e], clean, [])
  {
    DecodeEncoded(codec, e, []);
    DecodeNothing(codec, clean);
    assert [e] + [] == [e];
  }

  /** An envelope that goes out whole, below the limit, comes back at once. */
  lemma {:induction false} WholeComesBack(codec: Codec, e: Bytes)
    requires Usable(codec) && WellFormed(e)
    requires match codec case Plain(_) => |e| < 0x2_0000 case Compressed(_, z) => z.maxOutput(|e|) <= 0x2_0000
    ensures Decode(codec, clean, FrameBytes(codec, e, true)) == Decoding([e], clean, [])
  {
    EncodedWhole(codec, e);
    GoodLengthSurvives(codec, e);
  }

  lemma {:induction false} NothingAppended(b: Bytes)
    ensures b + [] == b
  {
  }

  /** One envelope round-trips if and only if its length is good. */
  lemma {:induction false} RoundTripExactly(codec: Codec, e: Bytes)
    requires Usable(codec) && WellFormed(e)
    ensures Decode(codec, clean, Encode(codec, e)) == Decoding([e], clean, []) <==> GoodLength(codec, |e|)
  {
    if GoodLength(codec, |e|) {
      GoodLengthSurvives(codec, e);
    } else if Splits(codec, |e|) {
      BadLengthBreaks(codec, e);
    } else {
      UnsplitAtLimit(codec, e);
      LimitIsLost(codec.sums, e);
    }
  }

  /** A last fragment of 1 to 9 bytes, from the third on, ends the connection whatever follows. */
  lemma {:induction false} ShortLastFragmentFails(codec: Codec, e: Bytes, rest: Bytes)
    requires Usable(codec) && WellFormed(e)
    requires |e| > 0x3_FFFE && (|e| - 1) % 0x1_FFFF < 9
    ensures Decode(codec, clean, Encode(codec, e) + rest) == Failed([])
  {
    RunFragments(e);
    DecodeWire(codec, clean, Fragments(e), rest);
  }

  /** A compressed envelope that is split into a single fragment stays in the buffer: nothing comes out. */
  lemma {:induction false} SingleFragmentStalls(codec: Codec, e: Bytes)
    requires Usable(codec) && WellFormed(e)
    requires codec.Compressed? && codec.lz4.maxOutput(|e|) > 0x2_0000 && |e| < 0x2_0000
    ensures Decode(codec, clean, Encode(codec, e)) == Decoding([], Partial(|e|, e), [])
  {
    RunFragments(e);
    DecodeWire(codec, clean, Fragments(e), []);
    assert Encode(codec, e) + [] == Encode(codec, e);
    DecodeNothing(codec, Partial(|e|, e));
  }
}
