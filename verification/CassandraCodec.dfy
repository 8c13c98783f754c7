/** The loops of the Cassandra codec, proved against the functions of the other Cassandra modules. */
module CassandraCodec {
  import opened ByteOrder
  import opened Messages
  import opened CassandraHeaders
  import opened CassandraFrames
  import opened CassandraEnvelopes
  import opened CassandraStream

  /** The outcome of one call of `decode`. */
  datatype Call = Pending | Error | Messages(envelopes: seq<Bytes>)

  /** Envelopes already split off, followed by what the rest of the payload gives. */
  function Glue(list: seq<Bytes>, es: Envelopes): Envelopes {
    match es
    case Parsed(more) => Parsed(list + more)
    case failed => failed
  }

  lemma {:induction false} GlueNext(list: seq<Bytes>, rest: Bytes, n: nat)
    requires |rest| >= envelopeHeader && !(-9 <= BodyLength(rest) < 0)
    requires n == envelopeHeader + AsUsize(BodyLength(rest)) <= |rest|
    ensures Glue(list, ParseEnvelopes(rest)) == Glue(list + [rest[..n]], ParseEnvelopes(rest[n..]))
  {
    var later := ParseEnvelopes(rest[n..]);
    if later.Parsed? {
      assert list + ([rest[..n]] + later.list) == list + [rest[..n]] + later.list;
    }
  }

  class CassandraDecoder {
    const codec: Codec
    var expectedPayloadLen: Option<nat>
    var payloadBuffer: Bytes

    ghost function State(): DecoderState
      reads this
    {
      DecoderState(expectedPayloadLen, payloadBuffer)
    }

    constructor (codec: Codec)
      ensures this.codec == codec && State() == clean
    {
      this.codec := codec;
      expectedPayloadLen, payloadBuffer := None, [];
    }

    /** `parse_full_envelopes_from_payload`. */
    static method ParseFullEnvelopes(payload: Bytes) returns (es: Envelopes)
      ensures es == ParseEnvelopes(payload)
    {
      var rest := payload;
      var list := [];
      while rest != []
        invariant Glue(list, ParseEnvelopes(rest)) == ParseEnvelopes(payload)
        decreases |rest|
      {
        if |rest| < envelopeHeader || -9 <= BodyLength(rest) < 0 {
          return Panicked;
        }
        var n := envelopeHeader + AsUsize(BodyLength(rest));
        if n > |rest| {
          return Overlong;
        }
        GlueNext(list, rest, n);
        list := list + [rest[..n]];
        rest := rest[n..];
      }
      assert list + [] == list;
      es := Parsed(list);
    }

    /** `extract_envelopes_from_payload`. */
    method ExtractEnvelopes(payload: Bytes, selfContained: bool) returns (es: Envelopes)
      modifies this
      ensures (State(), es) == Extract(old(State()), payload, selfContained)
    {
      if selfContained {
        es := ParseFullEnvelopes(payload);
      } else {
        payloadBuffer := payloadBuffer + payload;
        if expectedPayloadLen.None? {
          expectedPayloadLen := ExpectedLength(payloadBuffer);
          es := Parsed([]);
        } else if |payloadBuffer| < expectedPayloadLen.value {
          es := Parsed([]);
        } else {
          var full := payloadBuffer;
          payloadBuffer, expectedPayloadLen := [], None;
          es := ParseFullEnvelopes(full);
        }
      }
    }

    /** One call of `decode`: what it returns, and what is left to do, make up the whole decoding. */
    method DecodeOnce(src: Bytes) returns (call: Call, rest: Bytes)
      modifies this
      ensures call.Pending? ==>
        State() == old(State()) && rest == src && Decode(codec, old(State()), src) == Decoding([], State(), rest)
      ensures call.Error? ==> Decode(codec, old(State()), src) == Failed([])
      ensures call.Messages? ==>
        |rest| < |src| && Decode(codec, old(State()), src) == Prepend(call.envelopes, Decode(codec, State(), rest))
    {
      rest := src;
      match Parse(codec, src)
      case NeedMore => call := Pending;
      case Corrupt => call := Error;
      case Frame(payload, selfContained, behind) =>
        rest := behind;
        var es := ExtractEnvelopes(payload, selfContained);
        call := if es.Parsed? then Messages(es.list) else Error;
    }
  }

  lemma {:induction false} WireNext(codec: Codec, out: Bytes, rest: Bytes)
    requires rest != []
    ensures var n := if |rest| <= maxFragment then |rest| else maxFragment;
            out + Wire(codec, Fragments(rest))
            == out + FrameBytes(codec, rest[..n], false) + Wire(codec, Fragments(rest[n..]))
  {
    var n := if |rest| <= maxFragment then |rest| else maxFragment;
    FragmentsNext(rest, n);
    WireCons(codec, FrameItem(rest[..n], false), Fragments(rest[n..]));
    Regrouped(out, FrameBytes(codec, rest[..n], false), Wire(codec, Fragments(rest[n..])));
  }

  lemma {:induction false} FragmentsNext(rest: Bytes, n: nat)
    requires rest != [] && n == if |rest| <= maxFragment then |rest| else maxFragment
    ensures Fragments(rest) == [FrameItem(rest[..n], false)] + Fragments(rest[n..])
  {
    if |rest| <= maxFragment {
      assert rest[..|rest|] == rest && rest[|rest|..] == [];
    }
  }

  lemma {:induction false} WireCons(codec: Codec, f: FrameItem, later: seq<FrameItem>)
    ensures Wire(codec, [f] + later) == FrameBytes(codec, f.payload, f.selfContained) + Wire(codec, later)
  {
    assert ([f] + later)[1..] == later;
  }

  /** The version 5 branch of `encode_frame`: one self-contained frame, or a loop that cuts off fragments. */
  method EncodeEnvelope(codec: Codec, dst: Bytes, envelope: Bytes) returns (out: Bytes)
    ensures out == dst + Encode(codec, envelope)
    ensures codec.Plain? && |envelope| <= 0x2_0000 ==> out == dst + PlainFrame(codec.sums, envelope, true)
    ensures codec.Compressed? && codec.lz4.maxOutput(|envelope|) <= 0x2_0000 ==>
      out == dst + CompressedFrame(codec.sums, codec.lz4, envelope, true)
  {
    out := dst;
    var splits := match codec
      case Plain(_) => |envelope| > limit
      case Compressed(_, z) => z.maxOutput(|envelope|) > limit;
    if splits {
      var rest := envelope;
      while rest != []
        invariant out + Wire(codec, Fragments(rest)) == dst + Wire(codec, Fragments(envelope))
        decreases |rest|
      {
        var n := if |rest| <= maxFragment then |rest| else maxFragment;
        WireNext(codec, out, rest);
        out := out + FrameBytes(codec, rest[..n], false);
        rest := rest[n..];
      }
      assert out + [] == out;
    } else {
      out := out + FrameBytes(codec, envelope, true);
      var f := FrameItem(envelope, true);
      assert [f][1..] == [];
      assert Wire(codec, [f]) == FrameBytes(codec, envelope, true) + [];
    }
  }
}
