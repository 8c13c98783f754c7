/** Sequences of envelopes: exactly which come out of the decoder whole and in order. */
module CassandraSequences {
  import opened ByteOrder
  import opened Messages
  import opened CassandraHeaders
  import opened CassandraFrames
  import opened CassandraEnvelopes
  import opened CassandraStream

  /** An envelope that is split, into a single fragment. */
  predicate Single(codec: Codec, e: Bytes) {
    codec.Compressed? && codec.lz4.maxOutput(|e|) > 0x2_0000 && |e| < 0x2_0000
  }

  /** An envelope that goes out in one self-contained frame, below the limit. */
  predicate Whole(codec: Codec, e: Bytes) {
    match codec case Plain(_) => |e| < 0x2_0000 case Compressed(_, z) => z.maxOutput(|e|) <= 0x2_0000
  }

  /** An envelope of the limit in one self-contained frame, whose length field comes out as zero. */
  predicate AtLimit(codec: Codec, e: Bytes) {
    codec.Plain? && |e| == 0x2_0000
  }

  /** Well-formed; and at the limit, the first four bytes are not by chance the checksum of nothing. */
  predicate Sendable(codec: Codec, e: Bytes) {
    WellFormed(e) && (AtLimit(codec, e) ==> FromLe4(e[0], e[1], e[2], e[3]) != codec.sums.crc32([]))
  }

  predicate AllSendable(codec: Codec, es: seq<Bytes>) {
    forall i :: 0 <= i < |es| ==> Sendable(codec, es[i])
  }

  lemma {:induction false} Lz4Sendable(codec: Codec, e: Bytes)
    requires codec.Compressed? && Usable(codec) && WellFormed(e)
    ensures Sendable(codec, e) && !AtLimit(codec, e)
  {
  }

  // ---- what one envelope does to the decoder ----------------------------------------------------------

  /** The decoder between envelopes holds nothing, or one envelope that came as a single fragment. */
  function StateOf(held: Option<Bytes>): DecoderState
    requires held.Some? ==> WellFormed(held.value)
  {
    if held.None? then clean else Partial(|held.value|, held.value)
  }

  datatype Fate = Comes(envelopes: seq<Bytes>, held: Option<Bytes>) | Fails(envelopes: seq<Bytes>)

  function FateOf(codec: Codec, held: Option<Bytes>, e: Bytes): Fate {
    if AtLimit(codec, e) then Fails([])
    else if Whole(codec, e) then Comes([e], held)
    else if held.None? then
      if Single(codec, e) then Comes([], Some(e)) else if GoodLength(codec, |e|) then Comes([e], None) else Fails([])
    else
      if Single(codec, e) then Comes([held.value, e], None) else Fails([])
  }

  lemma {:induction false} ParseTwo(a: Bytes, b: Bytes)
    requires WellFormed(a) && WellFormed(b)
    ensures ParseEnvelopes(a + b) == Parsed([a, b])
  {
    assert BodyLength(a + b) == BodyLength(a);
    assert (a + b)[..|a|] == a && (a + b)[|a|..] == b;
    ParseOneEnvelope(b);
    assert [a] + [b] == [a, b];
  }

  lemma {:induction false} ParseThenCut(a: Bytes, e: Bytes, n: nat)
    requires WellFormed(a) && WellFormed(e) && envelopeHeader <= n < |e|
    ensures ParseEnvelopes(a + e[..n]) == Overlong
  {
    var b := e[..n];
    assert BodyLength(a + b) == BodyLength(a);
    assert (a + b)[..|a|] == a && (a + b)[|a|..] == b;
    ParseCutEnvelope(e, n);
  }

  lemma {:induction false} HeldThenSingle(x: Bytes, e: Bytes)
    requires WellFormed(x) && WellFormed(e) && |e| <= maxFragment
    ensures RunFrames(Partial(|x|, x), Fragments(e)) == Ran([x, e], clean)
  {
    ParseTwo(x, e);
    RunFirst(Partial(|x|, x), FrameItem(e, false), []);
    assert [FrameItem(e, false)] + [] == Fragments(e);
    assert [x, e] + [] == [x, e];
  }

  lemma {:induction false} HeldThenMany(x: Bytes, e: Bytes)
    requires WellFormed(x) && WellFormed(e) && |e| > maxFragment
    ensures RunFrames(Partial(|x|, x), Fragments(e)) == Broken([])
  {
    ParseThenCut(x, e, maxFragment);
    RunFirst(Partial(|x|, x), FrameItem(e[..maxFragment], false), Fragments(e[maxFragment..]));
  }

  function AsOutcome(fate: Fate): Outcome
    requires fate.Comes? && fate.held.Some? ==> WellFormed(fate.held.value)
  {
    match fate
    case Comes(es, held) => Ran(es, StateOf(held))
    case Fails(es) => Broken(es)
  }

  lemma {:induction false} FramesExactly(codec: Codec, e: Bytes)
    requires Usable(codec) && !AtLimit(codec, e)
    ensures Frames(codec, e) == if Whole(codec, e) then [FrameItem(e, true)] else Fragments(e)
    ensures Single(codec, e) <==> !Whole(codec, e) && |e| <= maxFragment
    ensures !Whole(codec, e) && |e| > maxFragment ==>
      (GoodLength(codec, |e|) <==> |e| <= 2 * maxFragment || Tail(|e|) >= 9)
  {
  }

  lemma {:induction false} RunFate(codec: Codec, held: Option<Bytes>, e: Bytes)
    requires Usable(codec) && WellFormed(e) && !AtLimit(codec, e) && (held.Some? ==> WellFormed(held.value))
    ensures RunFrames(StateOf(held), Frames(codec, e)) == AsOutcome(FateOf(codec, held, e))
  {
    FramesExactly(codec, e);
    if Whole(codec, e) {
      RunSelfContained(StateOf(held), e);
    } else if held.None? {
      RunFragments(e);
    } else if Single(codec, e) {
      HeldThenSingle(held.value, e);
    } else {
      HeldThenMany(held.value, e);
    }
  }

  // ---- sequences ----------------------------------------------------------------------------------------

  function After(list: seq<Bytes>, fate: Fate): Fate {
    match fate
    case Comes(es, held) => Comes(list + es, held)
    case Fails(es) => Fails(list + es)
  }

  /** What becomes of a whole sequence. */
  function FateOfAll(codec: Codec, held: Option<Bytes>, es: seq<Bytes>): Fate
    decreases |es|
  {
    if es == [] then Comes([], held)
    else
      var first := FateOf(codec, held, es[0]);
      if first.Fails? then first else After(first.envelopes, FateOfAll(codec, first.held, es[1..]))
  }

  function AsDecoding(fate: Fate): Decoding
    requires fate.Comes? && fate.held.Some? ==> WellFormed(fate.held.value)
  {
    match fate
    case Comes(es, held) => Decoding(es, StateOf(held), [])
    case Fails(es) => Failed(es)
  }

  lemma {:induction false} HeldWellFormed(codec: Codec, held: Option<Bytes>, es: seq<Bytes>)
    requires AllSendable(codec, es) && (held.Some? ==> WellFormed(held.value))
    ensures var fate := FateOfAll(codec, held, es); fate.Comes? && fate.held.Some? ==> WellFormed(fate.held.value)
    decreases |es|
  {
    if es != [] && FateOf(codec, held, es[0]).Comes? {
      HeldWellFormed(codec, FateOf(codec, held, es[0]).held, es[1..]);
    }
  }

  lemma {:induction false} FramesFit(codec: Codec, e: Bytes)
    requires Usable(codec) && !AtLimit(codec, e)
    ensures Fit(Frames(codec, e))
  {
  }

  predicate NoneAtLimit(codec: Codec, es: seq<Bytes>) {
    forall i :: 0 <= i < |es| ==> !AtLimit(codec, es[i])
  }

  lemma {:induction false} BeforeFate(list: seq<Bytes>, fate: Fate)
    requires fate.Comes? && fate.held.Some? ==> WellFormed(fate.held.value)
    ensures Before(list, AsOutcome(fate)) == AsOutcome(After(list, fate))
  {
  }

  function AllFrames(codec: Codec, es: seq<Bytes>): seq<FrameItem> {
    if es == [] then [] else Frames(codec, es[0]) + AllFrames(codec, es[1..])
  }

  lemma {:induction false} AllFit(codec: Codec, es: seq<Bytes>)
    requires Usable(codec) && NoneAtLimit(codec, es)
    ensures Fit(AllFrames(codec, es))
    decreases |es|
  {
    if es != [] {
      FramesFit(codec, es[0]);
      AllFit(codec, es[1..]);
    }
  }

  lemma {:induction false} WireConcat(codec: Codec, a: seq<FrameItem>, b: seq<FrameItem>)
    ensures Wire(codec, a + b) == Wire(codec, a) + Wire(codec, b)
    decreases |a|
  {
    if a == [] {
      assert a + b == b;
    } else {
      WireConcat(codec, a[1..], b);
      WireFirst(codec, a, Wire(codec, b));
      WireUnfolded(codec, a, b);
    }
  }

  lemma {:induction false} WireUnfolded(codec: Codec, a: seq<FrameItem>, b: seq<FrameItem>)
    requires a != []
    ensures Wire(codec, a + b) == FrameBytes(codec, a[0].payload, a[0].selfContained) + Wire(codec, a[1..] + b)
  {
    assert (a + b)[1..] == a[1..] + b;
  }

  lemma {:induction false} WireAll(codec: Codec, es: seq<Bytes>)
    ensures Wire(codec, AllFrames(codec, es)) == EncodeAll(codec, es)
    decreases |es|
  {
    if es != [] {
      WireAll(codec, es[1..]);
      WireConcat(codec, Frames(codec, es[0]), AllFrames(codec, es[1..]));
    }
  }

  lemma {:induction false} RunFates(codec: Codec, held: Option<Bytes>, es: seq<Bytes>)
    requires Usable(codec) && AllSendable(codec, es) && NoneAtLimit(codec, es)
    requires held.Some? ==> WellFormed(held.value)
    ensures var fate := FateOfAll(codec, held, es); fate.Comes? && fate.held.Some? ==> WellFormed(fate.held.value)
    ensures RunFrames(StateOf(held), AllFrames(codec, es)) == AsOutcome(FateOfAll(codec, held, es))
    decreases |es|
  {
    HeldWellFormed(codec, held, es);
    if es != [] {
      var first := FateOf(codec, held, es[0]);
      RunFate(codec, held, es[0]);
      RunConcat(StateOf(held), Frames(codec, es[0]), AllFrames(codec, es[1..]));
      if first.Comes? {
        RunFates(codec, first.held, es[1..]);
        BeforeFate(first.envelopes, FateOfAll(codec, first.held, es[1..]));
      }
    }
  }

  /** At the limit the header announces nothing, and the first bytes of the envelope do not match its checksum. */
  lemma {:induction false} LimitFails(codec: Codec, st: DecoderState, e: Bytes, rest: Bytes)
    requires Usable(codec) && Sendable(codec, e) && AtLimit(codec, e)
    ensures Decode(codec, st, Encode(codec, e) + rest) == Failed([])
  {
    UnsplitAtLimit(codec, e);
    LimitCorrupt(codec.sums, e);
    ParsePlainStable(codec.sums, PlainFrame(codec.sums, e, true), rest);
  }

  lemma {:induction false} FateSplits(codec: Codec, held: Option<Bytes>, a: seq<Bytes>, b: seq<Bytes>)
    ensures var fate := FateOfAll(codec, held, a);
            FateOfAll(codec, held, a + b)
            == if fate.Fails? then fate else After(fate.envelopes, FateOfAll(codec, fate.held, b))
    decreases |a|
  {
    if a == [] {
      assert a + b == b;
      AfterNothing(FateOfAll(codec, held, b));
    } else {
      assert (a + b)[1..] == a[1..] + b;
      var first := FateOf(codec, held, a[0]);
      if first.Comes? {
        FateSplits(codec, first.held, a[1..], b);
        var fate := FateOfAll(codec, first.held, a[1..]);
        if fate.Comes? {
          AfterAfter(first.envelopes, fate.envelopes, FateOfAll(codec, fate.held, b));
        }
      }
    }
  }

  lemma {:induction false} AfterAfter(a: seq<Bytes>, b: seq<Bytes>, fate: Fate)
    ensures After(a, After(b, fate)) == After(a + b, fate)
  {
    Regrouped(a, b, fate.envelopes);
  }

  lemma {:induction false} EncodeAllUnfolded(codec: Codec, a: seq<Bytes>, b: seq<Bytes>)
    requires a != []
    ensures EncodeAll(codec, a + b) == Encode(codec, a[0]) + EncodeAll(codec, a[1..] + b)
  {
    assert (a + b)[1..] == a[1..] + b;
  }

  lemma {:induction false} EncodeAllConcat(codec: Codec, a: seq<Bytes>, b: seq<Bytes>)
    ensures EncodeAll(codec, a + b) == EncodeAll(codec, a) + EncodeAll(codec, b)
    decreases |a|
  {
    if a == [] {
      assert a + b == b;
    } else {
      EncodeAllConcat(codec, a[1..], b);
      EncodeAllUnfolded(codec, a, b);
      Regrouped(Encode(codec, a[0]), EncodeAll(codec, a[1..]), EncodeAll(codec, b));
    }
  }

  /** Up to the first envelope at the limit the decoder does what the fates say, whatever follows. */
  lemma {:induction false} DecodeUpTo(codec: Codec, held: Option<Bytes>, es: seq<Bytes>, rest: Bytes)
    requires Usable(codec) && AllSendable(codec, es) && NoneAtLimit(codec, es)
    requires held.Some? ==> WellFormed(held.value)
    ensures var fate := FateOfAll(codec, held, es);
            && (fate.Comes? && fate.held.Some? ==> WellFormed(fate.held.value))
            && Decode(codec, StateOf(held), EncodeAll(codec, es) + rest) == Then(codec, AsOutcome(fate), rest)
  {
    RunFates(codec, held, es);
    AllFit(codec, es);
    WireAll(codec, es);
    DecodeWire(codec, StateOf(held), AllFrames(codec, es), rest);
  }

  lemma {:induction false} NothingBehind(codec: Codec, fate: Fate)
    requires fate.Comes? && fate.held.Some? ==> WellFormed(fate.held.value)
    ensures Then(codec, AsOutcome(fate), []) == AsDecoding(fate)
  {
    if fate.Comes? {
      DecodeNothing(codec, StateOf(fate.held));
      assert fate.envelopes + [] == fate.envelopes;
    }
  }

  lemma {:induction false} FailureBehind(codec: Codec, fate: Fate, rest: Bytes)
    requires fate.Comes? && fate.held.Some? ==> WellFormed(fate.held.value)
    requires fate.Comes? ==> Decode(codec, StateOf(fate.held), rest) == Failed([])
    ensures Then(codec, AsOutcome(fate), rest) == Failed(fate.envelopes)
  {
    assert fate.envelopes + [] == fate.envelopes;
  }

  /** Where the first envelope at the limit is. */
  lemma {:induction false} FirstAtLimit(codec: Codec, es: seq<Bytes>) returns (k: nat)
    ensures k <= |es| && NoneAtLimit(codec, es[..k]) && (k < |es| ==> AtLimit(codec, es[k]))
  {
    k := 0;
    while k < |es| && !AtLimit(codec, es[k])
      invariant k <= |es| && NoneAtLimit(codec, es[..k])
    {
      k := k + 1;
    }
  }

  lemma {:induction false} DecodeToLimit(codec: Codec, held: Option<Bytes>, a: seq<Bytes>, b: seq<Bytes>)
    requires Usable(codec) && AllSendable(codec, a) && AllSendable(codec, b) && NoneAtLimit(codec, a)
    requires held.Some? ==> WellFormed(held.value)
    requires b != [] && AtLimit(codec, b[0])
    ensures FateOfAll(codec, held, a + b) == Fails(FateOfAll(codec, held, a).envelopes)
    ensures Decode(codec, StateOf(held), EncodeAll(codec, a + b)) == Failed(FateOfAll(codec, held, a).envelopes)
  {
    var fate, rest := FateOfAll(codec, held, a), EncodeAll(codec, b);
    FateSplits(codec, held, a, b);
    assert fate.envelopes + [] == fate.envelopes;
    EncodeAllConcat(codec, a, b);
    DecodeUpTo(codec, held, a, rest);
    if fate.Comes? {
      LimitFails(codec, StateOf(fate.held), b[0], EncodeAll(codec, b[1..]));
    }
    FailureBehind(codec, fate, rest);
  }

  /** The decoder, fed the encoding of any sequence, does what the fates say. */
  lemma {:induction false} DecodeFates(codec: Codec, held: Option<Bytes>, es: seq<Bytes>)
    requires Usable(codec) && AllSendable(codec, es) && (held.Some? ==> WellFormed(held.value))
    ensures var fate := FateOfAll(codec, held, es); fate.Comes? && fate.held.Some? ==> WellFormed(fate.held.value)
    ensures Decode(codec, StateOf(held), EncodeAll(codec, es)) == AsDecoding(FateOfAll(codec, held, es))
  {
    var k := FirstAtLimit(codec, es);
    assert es[..k] + es[k..] == es;
    if k < |es| {
      DecodeToLimit(codec, held, es[..k], es[k..]);
    } else {
      assert es[..k] == es;
      DecodeUpTo(codec, held, es, []);
      assert EncodeAll(codec, es) + [] == EncodeAll(codec, es);
      NothingBehind(codec, FateOfAll(codec, held, es));
    }
  }

  /**
    * Single fragments come in pairs, one right behind the other; every other split envelope has a good length.
    */
  predicate Deliverable(codec: Codec, es: seq<Bytes>) {
    if es == [] then true
    else if Single(codec, es[0]) then |es| >= 2 && Single(codec, es[1]) && Deliverable(codec, es[2..])
    else GoodLength(codec, |es[0]|) && Deliverable(codec, es[1..])
  }

  lemma {:induction false} AfterOne(e: Bytes, fate: Fate, es: seq<Bytes>)
    requires es != [] && es[0] == e
    ensures After([e], fate) == Comes(es, None) <==> fate == Comes(es[1..], None)
  {
    assert [e] + es[1..] == es;
    if After([e], fate) == Comes(es, None) {
      assert ([e] + fate.envelopes)[1..] == fate.envelopes;
    }
  }

  lemma {:induction false} AfterTwo(fate: Fate, es: seq<Bytes>)
    requires |es| >= 2
    ensures After([es[0], es[1]], fate) == Comes(es, None) <==> fate == Comes(es[2..], None)
  {
    assert [es[0], es[1]] + es[2..] == es;
    if After([es[0], es[1]], fate) == Comes(es, None) {
      assert ([es[0], es[1]] + fate.envelopes)[2..] == fate.envelopes;
    }
  }

  /** A sequence comes out whole and in order only if it is deliverable. */
  lemma {:induction false} ComesExactly(codec: Codec, es: seq<Bytes>)
    requires AllSendable(codec, es)
    ensures FateOfAll(codec, None, es) == Comes(es, None) <==> Deliverable(codec, es)
    decreases |es|
  {
    if es != [] {
      if Single(codec, es[0]) {
        SingleFirst(codec, es);
        if |es| >= 2 && Single(codec, es[1]) {
          ComesExactly(codec, es[2..]);
        }
      } else if FateOf(codec, None, es[0]).Comes? {
        ComesExactly(codec, es[1..]);
        AfterOne(es[0], FateOfAll(codec, None, es[1..]), es);
      }
    }
  }

  lemma {:induction false} AfterNothing(fate: Fate)
    ensures After([], fate) == fate
  {
    assert [] + fate.envelopes == fate.envelopes;
  }

  /** A single fragment in front needs another right behind it. */
  lemma {:induction false} SingleFirst(codec: Codec, es: seq<Bytes>)
    requires AllSendable(codec, es) && es != [] && Single(codec, es[0])
    ensures FateOfAll(codec, None, es) == Comes(es, None)
       <==> |es| >= 2 && Single(codec, es[1]) && FateOfAll(codec, None, es[2..]) == Comes(es[2..], None)
  {
    var rest := es[1..];
    var fate := FateOfAll(codec, Some(es[0]), rest);
    AfterNothing(fate);
    assert FateOfAll(codec, None, es) == fate;
    if rest != [] {
      var e := rest[0];
      assert e == es[1];
      if Single(codec, e) {
        var later := FateOfAll(codec, None, rest[1..]);
        assert rest[1..] == es[2..];
        assert fate == After([es[0], e], later);
        AfterTwo(later, es);
      } else if Whole(codec, e) {
        var later := FateOfAll(codec, Some(es[0]), rest[1..]);
        assert fate == After([e], later);
        assert ([e] + later.envelopes)[0] == e;
      }
    }
  }

  /**
    * Any sequence, with LZ4 or without: over any chunking it comes out whole and in order, and leaves the decoder
    * clean, if and only if it is deliverable.
    */
  lemma {:induction false} SequenceExactly(codec: Codec, es: seq<Bytes>, chunks: seq<Bytes>)
    requires Usable(codec) && AllSendable(codec, es) && Flatten(chunks) == EncodeAll(codec, es)
    ensures Feed(codec, chunks) == Decoding(es, clean, []) <==> Deliverable(codec, es)
  {
    ChunkingIrrelevant(codec, chunks);
    DecodeFates(codec, None, es);
    ComesExactly(codec, es);
    var fate := FateOfAll(codec, None, es);
    if fate.Comes? && fate.held.Some? {
      assert StateOf(fate.held) != clean;
    }
  }

  /** A self-contained envelope overtakes one that is held. */
  lemma {:induction false} Overtakes(codec: Codec, x: Bytes, e: Bytes)
    requires Usable(codec) && Sendable(codec, x) && Sendable(codec, e)
    requires Single(codec, x) && Whole(codec, e)
    ensures Decode(codec, clean, EncodeAll(codec, [x, e])) == Decoding([e], Partial(|x|, x), [])
  {
    Lz4Sendable(codec, e);
    OvertakesFate(codec, x, e);
    DecodeFates(codec, None, [x, e]);
  }

  lemma {:induction false} OvertakesFate(codec: Codec, x: Bytes, e: Bytes)
    requires Single(codec, x) && Whole(codec, e)
    ensures FateOfAll(codec, None, [x, e]) == Comes([e], Some(x))
  {
    assert [x, e][1..] == [e] && [e][1..] == [];
    assert FateOfAll(codec, Some(x), [e]) == After([e], Comes([], Some(x)));
    assert [e] + [] == [e];
    AfterNothing(FateOfAll(codec, Some(x), [e]));
  }
}
