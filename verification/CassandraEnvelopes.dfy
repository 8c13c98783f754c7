/** Envelopes over frames: splitting, reassembly, and exactly which envelope lengths survive both. */
module CassandraEnvelopes {
  import opened ByteOrder
  import opened Messages
  import opened CassandraHeaders

  const envelopeHeader: nat := 9
  /** A fragment carries at most one byte less than the limit. */
  const maxFragment: nat := limit - 1

  // ---- envelopes ---------------------------------------------------------------------------

  /** The signed big-endian body length at bytes 5 to 8 of an envelope. */
  function BodyLength(b: Bytes): int
    requires |b| >= envelopeHeader
  {
    var v := FromLe4(b[8], b[7], b[6], b[5]);
    if v >= 0x8000_0000 then v - 0x1_0000_0000 else v
  }

  /** A cast of a 32-bit signed value to the 64-bit `usize`. */
  function AsUsize(v: int): nat
    requires -0x8000_0000 <= v
  {
    if v < 0 then v + 0x1_0000_0000_0000_0000 else v
  }

  predicate WellFormed(e: Bytes) {
    |e| >= envelopeHeader && BodyLength(e) == |e| - envelopeHeader
  }

  /** The body length is the big-endian number behind the first five bytes. */
  lemma {:induction false} WellFormedExactly(e: Bytes)
    requires 9 <= |e| < 0x8000_0000
    ensures var a: int, b: int, c: int, d: int := e[5], e[6], e[7], e[8];
            WellFormed(e) <==> |e| == 9 + a * 0x100_0000 + b * 0x1_0000 + c * 0x100 + d
  {
  }

  datatype Envelopes = Parsed(list: seq<Bytes>) | Overlong | Panicked

  /** Splits a payload into envelopes; reading a cut-off header, or adding to a length of -9 to -1, panics. */
  function ParseEnvelopes(payload: Bytes): Envelopes {
    if payload == [] then Parsed([])
    else if |payload| < envelopeHeader || -9 <= BodyLength(payload) < 0 then Panicked
    else
      var n := envelopeHeader + AsUsize(BodyLength(payload));
      if n > |payload| then Overlong
      else
        match ParseEnvelopes(payload[n..])
        case Parsed(list) => Parsed([payload[..n]] + list)
        case failed => failed
  }

  lemma {:induction false} ParseOneEnvelope(e: Bytes)
    requires WellFormed(e)
    ensures ParseEnvelopes(e) == Parsed([e])
  {
    assert e[..|e|] == e && e[|e|..] == [];
    assert ParseEnvelopes(e[|e|..]) == Parsed([]);
  }

  lemma {:induction false} ParseCutEnvelope(e: Bytes, n: nat)
    requires WellFormed(e) && envelopeHeader <= n < |e|
    ensures ParseEnvelopes(e[..n]) == Overlong
  {
    assert BodyLength(e[..n]) == BodyLength(e);
  }

  function Joined(es: seq<Bytes>): Bytes {
    if es == [] then [] else es[0] + Joined(es[1..])
  }

  lemma {:induction false} ParseFirst(e: Bytes, rest: Bytes)
    requires WellFormed(e)
    ensures ParseEnvelopes(e + rest)
         == match ParseEnvelopes(rest) case Parsed(list) => Parsed([e] + list) case failed => failed
  {
    assert BodyLength(e + rest) == BodyLength(e);
    assert (e + rest)[..|e|] == e && (e + rest)[|e|..] == rest;
  }

  /**
    * Envelopes and what lies behind them: nothing, a piece of a header or a length of -9 to -1, or an envelope that
    * goes beyond the payload.
    */
  lemma {:induction false} ParsesExactly(es: seq<Bytes>, rest: Bytes)
    requires forall i :: 0 <= i < |es| ==> WellFormed(es[i])
    ensures rest == [] ==> ParseEnvelopes(Joined(es) + rest) == Parsed(es)
    ensures 0 < |rest| < 9 || (|rest| >= 9 && -9 <= BodyLength(rest) < 0) ==>
      ParseEnvelopes(Joined(es) + rest) == Panicked
    ensures |rest| >= 9 && (BodyLength(rest) < -9 || 9 + BodyLength(rest) > |rest|) && |rest| < 0x8000_0000 ==>
      ParseEnvelopes(Joined(es) + rest) == Overlong
    decreases |es|
  {
    if es == [] {
      assert Joined(es) + rest == rest;
    } else {
      ParsesExactly(es[1..], rest);
      Regrouped(es[0], Joined(es[1..]), rest);
      ParseFirst(es[0], Joined(es[1..]) + rest);
      assert [es[0]] + es[1..] == es;
    }
  }

  // ---- the decoder's half ----------------------------------------------------------------------

  datatype DecoderState = DecoderState(expected: Option<nat>, buffer: Bytes)

  const clean := DecoderState(None, [])

  function ExpectedLength(buffer: Bytes): Option<nat> {
    if |buffer| < envelopeHeader then None else Some(AsUsize(BodyLength(buffer)))
  }

  /** `extract_envelopes_from_payload`. */
  function Extract(st: DecoderState, payload: Bytes, selfContained: bool): (DecoderState, Envelopes) {
    if selfContained then (st, ParseEnvelopes(payload))
    else
      var buffer := st.buffer + payload;
      if st.expected.None? then (DecoderState(ExpectedLength(buffer), buffer), Parsed([]))
      else if |buffer| < st.expected.value then (DecoderState(st.expected, buffer), Parsed([]))
      else (clean, ParseEnvelopes(buffer))
  }

  /** A frame as the decoder hands it on. */
  datatype FrameItem = FrameItem(payload: Bytes, selfContained: bool)

  datatype Outcome = Ran(envelopes: seq<Bytes>, state: DecoderState) | Broken(envelopes: seq<Bytes>)

  function Before(list: seq<Bytes>, r: Outcome): Outcome {
    match r
    case Ran(es, st) => Ran(list + es, st)
    case Broken(es) => Broken(list + es)
  }

  /** The decoder's state machine over whole frames. */
  function RunFrames(st: DecoderState, frames: seq<FrameItem>): Outcome
    decreases |frames|
  {
    if frames == [] then Ran([], st)
    else
      var (st', es) := Extract(st, frames[0].payload, frames[0].selfContained);
      if es.Parsed? then Before(es.list, RunFrames(st', frames[1..])) else Broken([])
  }

  lemma {:induction false} BeforeBefore(a: seq<Bytes>, b: seq<Bytes>, r: Outcome)
    ensures Before(a, Before(b, r)) == Before(a + b, r) && Before([], r) == r
  {
    assert a + b + r.envelopes == a + (b + r.envelopes);
    assert [] + r.envelopes == r.envelopes;
  }

  lemma {:induction false} RunFirst(st: DecoderState, f: FrameItem, frames: seq<FrameItem>)
    ensures var (st', es) := Extract(st, f.payload, f.selfContained);
            RunFrames(st, [f] + frames) == if es.Parsed? then Before(es.list, RunFrames(st', frames)) else Broken([])
  {
    assert ([f] + frames)[1..] == frames;
  }

  /** Running the frames `a` and then, if they were fine, `b`. */
  lemma {:induction false} RunConcat(st: DecoderState, a: seq<FrameItem>, b: seq<FrameItem>)
    ensures RunFrames(st, a + b)
         == match RunFrames(st, a)
            case Ran(es, st') => Before(es, RunFrames(st', b))
            case Broken(es) => Broken(es)
    decreases |a|
  {
    if a == [] {
      assert a + b == b;
      BeforeBefore([], [], RunFrames(st, b));
    } else {
      var (st', es) := Extract(st, a[0].payload, a[0].selfContained);
      assert a + b == [a[0]] + (a[1..] + b);
      RunFirst(st, a[0], a[1..] + b);
      if es.Parsed? {
        RunConcat(st', a[1..], b);
        var r := RunFrames(st', a[1..]);
        if r.Ran? {
          BeforeBefore(es.list, r.envelopes, RunFrames(r.state, b));
        }
      }
    }
  }

  // ---- the encoder's half ---------------------------------------------------------------------

  /** An envelope cut into fragments, none of them self-contained. */
  function Fragments(e: Bytes): (frames: seq<FrameItem>)
    ensures forall i :: 0 <= i < |frames| ==> 0 < |frames[i].payload| < limit
  {
    if e == [] then []
    else if |e| <= maxFragment then [FrameItem(e, false)]
    else [FrameItem(e[..maxFragment], false)] + Fragments(e[maxFragment..])
  }

  lemma {:induction false} SliceOfRest(e: Bytes, n: nat, from: nat, to: nat)
    requires n <= |e| && from <= to <= |e| - n
    ensures e[n..][from..to] == e[n + from..n + to]
  {
  }

  lemma {:induction false} FragmentAt(e: Bytes, i: nat)
    requires i < |Fragments(e)|
    ensures var from, to := i * 0x1_FFFF, Min((i + 1) * 0x1_FFFF, |e|);
            from < to && Fragments(e)[i] == FrameItem(e[from..to], false)
    ensures (|Fragments(e)| - 1) * 0x1_FFFF < |e| <= |Fragments(e)| * 0x1_FFFF
    decreases |e|
  {
    if |e| <= maxFragment {
      assert e[0..|e|] == e;
    } else {
      var back := e[maxFragment..];
      FragmentAt(back, if i == 0 then 0 else i - 1);
      if i > 0 {
        SliceOfRest(e, maxFragment, (i - 1) * 0x1_FFFF, Min(i * 0x1_FFFF, |back|));
      }
    }
  }

  /** The size of the last fragment, less one. */
  function Tail(n: nat): nat
    requires n > 0
  {
    (n - 1) % maxFragment
  }

  /** The state while an envelope of `n` bytes is being put together. */
  function Partial(n: nat, front: Bytes): DecoderState
    requires n >= envelopeHeader
  {
    DecoderState(Some(n - envelopeHeader), front)
  }

  lemma {:induction false} RunLast(front: Bytes, back: Bytes)
    requires WellFormed(front + back)
    ensures RunFrames(Partial(|front + back|, front), [FrameItem(back, false)]) == Ran([front + back], clean)
  {
    RunFirst(Partial(|front + back|, front), FrameItem(back, false), []);
    assert [FrameItem(back, false)] + [] == [FrameItem(back, false)];
    ParseOneEnvelope(front + back);
  }

  /** With at most 9 bytes to come, the body length is already reached and the parse comes too early. */
  lemma {:induction false} RunTooEarly(front: Bytes, next: Bytes, later: Bytes, frames: seq<FrameItem>)
    requires WellFormed(front + next + later) && |next| == maxFragment && 0 < |later| <= envelopeHeader
    ensures RunFrames(Partial(|front + next + later|, front), [FrameItem(next, false)] + frames) == Broken([])
  {
    var e := front + next + later;
    RunFirst(Partial(|e|, front), FrameItem(next, false), frames);
    assert e[..|front + next|] == front + next;
    ParseCutEnvelope(e, |front + next|);
  }

  lemma {:induction false} RunMiddle(n: nat, front: Bytes, next: Bytes, frames: seq<FrameItem>)
    requires n > |front| + |next| + envelopeHeader
    ensures RunFrames(Partial(n, front), [FrameItem(next, false)] + frames)
         == RunFrames(Partial(n, front + next), frames)
  {
    RunFirst(Partial(n, front), FrameItem(next, false), frames);
    BeforeBefore([], [], RunFrames(Partial(n, front + next), frames));
  }

  lemma {:induction false} TailStep(n: nat)
    requires n > maxFragment
    ensures Tail(n) == Tail(n - maxFragment)
    ensures n - maxFragment <= envelopeHeader ==> Tail(n) < 9
    ensures envelopeHeader < n - maxFragment <= maxFragment ==> Tail(n) >= 9
  {
  }

  /** From the second fragment on: the envelope comes out unless the rest length triggers the early parse. */
  lemma {:induction false} RunLaterFragments(front: Bytes, back: Bytes)
    requires WellFormed(front + back) && back != []
    ensures RunFrames(Partial(|front + back|, front), Fragments(back))
         == if |back| <= maxFragment || Tail(|back|) >= 9 then Ran([front + back], clean) else Broken([])
    decreases |back|
  {
    if |back| <= maxFragment {
      RunLast(front, back);
    } else {
      var next, later := back[..maxFragment], back[maxFragment..];
      assert front + next + later == front + back;
      TailStep(|back|);
      if |later| <= envelopeHeader {
        RunTooEarly(front, next, later, Fragments(later));
      } else {
        RunMiddle(|front + back|, front, next, Fragments(later));
        RunLaterFragments(front + next, later);
      }
    }
  }

  lemma {:induction false} RunFirstFragment(e: Bytes, n: nat, frames: seq<FrameItem>)
    requires WellFormed(e) && envelopeHeader <= n <= |e|
    ensures RunFrames(clean, [FrameItem(e[..n], false)] + frames) == RunFrames(Partial(|e|, e[..n]), frames)
  {
    RunFirst(clean, FrameItem(e[..n], false), frames);
    assert [] + e[..n] == e[..n];
    assert BodyLength(e[..n]) == BodyLength(e);
    BeforeBefore([], [], RunFrames(Partial(|e|, e[..n]), frames));
  }

  /** What becomes of a split envelope, in every case. */
  lemma {:induction false} RunFragments(e: Bytes)
    requires WellFormed(e)
    ensures RunFrames(clean, Fragments(e))
         == if |e| <= maxFragment then Ran([], Partial(|e|, e))
            else if |e| <= 2 * maxFragment || Tail(|e|) >= 9 then Ran([e], clean)
            else Broken([])
  {
    if |e| <= maxFragment {
      assert e[..|e|] == e;
      RunFirstFragment(e, |e|, []);
      assert [FrameItem(e, false)] + [] == Fragments(e);
    } else {
      var front, back := e[..maxFragment], e[maxFragment..];
      assert front + back == e;
      RunFirstFragment(e, maxFragment, Fragments(back));
      RunLaterFragments(front, back);
      TailStep(|e|);
    }
  }

  lemma {:induction false} RunSelfContained(st: DecoderState, e: Bytes)
    requires WellFormed(e)
    ensures RunFrames(st, [FrameItem(e, true)]) == Ran([e], st)
  {
    RunFirst(st, FrameItem(e, true), []);
    assert [FrameItem(e, true)] + [] == [FrameItem(e, true)];
    ParseOneEnvelope(e);
  }
}
