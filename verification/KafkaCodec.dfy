/** The Kafka codec: the queue of request headers, and raw SASL kept in step between two decoders. */
module KafkaCodec {
  import opened Messages

  datatype Mechanism = Plain | ScramSha512 | ScramSha256 | OtherMechanism

  /** Which raw SASL message comes next. */
  datatype SaslState = PlainNext | ScramFirst | ScramFinal

  function FromName(m: Mechanism): Option<SaslState> {
    match m
    case Plain => Some(PlainNext)
    case ScramSha512 => Some(ScramFirst)
    case ScramSha256 => Some(ScramFirst)
    case OtherMechanism => None
  }

  function Advance(awaiting: Option<SaslState>): Option<SaslState> {
    if awaiting == Some(ScramFirst) then Some(ScramFinal) else None
  }

  datatype Api = SaslHandshake(version: int, mechanism: Mechanism) | Produce(acks: int) | OtherApi

  /** What a transform may have done to a request so that it cannot be sent. */
  datatype Fault = NoFault | EncodingFails | UnknownApiKey

  /** A request as the source decoder read it; a transform may have replaced it with a dummy, or broken it, since. */
  datatype KafkaRequest = KafkaRequest(id: MessageId, api: Api, raw: bool, dummy: bool, fault: Fault)

  /** What the sink's encoder tells its decoder about a request. */
  datatype RequestInfo = RequestInfo(id: MessageId, expectRawSasl: Option<SaslState>)

  /** `response_is_dummy`: the server will send no reply. */
  predicate ResponseIsDummy(m: KafkaRequest) {
    m.dummy || (!m.raw && m.api.Produce? && m.api.acks == 0)
  }

  /** A handshake after which raw SASL messages follow. */
  predicate StartsRawSasl(m: KafkaRequest) {
    !m.dummy && !m.raw && m.api.SaslHandshake? && m.api.version == 0
  }

  predicate UnknownMechanism(m: KafkaRequest) {
    StartsRawSasl(m) && FromName(m.api.mechanism).None?
  }

  /** The message makes `encode` return an error. The API key is looked at only when a reply is expected. */
  predicate EncodeFails(m: KafkaRequest) {
    !m.dummy && (UnknownMechanism(m) || FrameFails(m) || LacksApiKey(m))
  }

  /** A raw SASL message is copied as it is, which cannot fail. */
  predicate FrameFails(m: KafkaRequest) {
    m.fault.EncodingFails? && !m.raw
  }

  predicate LacksApiKey(m: KafkaRequest) {
    m.fault.UnknownApiKey? && !m.raw && !ResponseIsDummy(m)
  }

  /** The message that failed has left bytes behind, unless it failed for its mechanism. */
  predicate LeavesBytes(m: KafkaRequest) {
    EncodeFails(m) && !UnknownMechanism(m)
  }

  /** It has left a header behind too if it was the encoding of its frame that failed. */
  predicate LeavesHeader(m: KafkaRequest) {
    LeavesBytes(m) && FrameFails(m) && !ResponseIsDummy(m)
  }

  function InfoOf(m: KafkaRequest): RequestInfo {
    RequestInfo(m.id, if StartsRawSasl(m) then FromName(m.api.mechanism) else None)
  }

  function InfosOf(ms: seq<KafkaRequest>): (infos: seq<RequestInfo>)
    ensures |infos| == |ms|
  {
    seq(|ms|, i requires 0 <= i < |ms| => InfoOf(ms[i]))
  }

  /** The requests the server will answer. */
  function ExpectingOf(ms: seq<KafkaRequest>): seq<KafkaRequest> {
    if ms == [] then []
    else if ResponseIsDummy(ms[|ms| - 1]) then ExpectingOf(ms[..|ms| - 1])
    else ExpectingOf(ms[..|ms| - 1]) + [ms[|ms| - 1]]
  }

  /** What reaches the wire: everything but dummies. */
  function Written(ms: seq<KafkaRequest>): seq<KafkaRequest> {
    if ms == [] then []
    else if ms[|ms| - 1].dummy then Written(ms[..|ms| - 1])
    else Written(ms[..|ms| - 1]) + [ms[|ms| - 1]]
  }

  lemma {:induction false} ExpectingConcat(a: seq<KafkaRequest>, b: seq<KafkaRequest>)
    ensures ExpectingOf(a + b) == ExpectingOf(a) + ExpectingOf(b)
  {
    if b == [] {
      assert a + b == a;
    } else {
      ExpectingConcat(a, b[..|b| - 1]);
      assert (a + b)[..|a + b| - 1] == a + b[..|b| - 1];
    }
  }

  predicate NoneFails(ms: seq<KafkaRequest>) {
    forall i :: 0 <= i < |ms| ==> !EncodeFails(ms[i])
  }

  lemma {:induction false} NoneFailsNext(batch: seq<KafkaRequest>, n: nat)
    requires n < |batch| && NoneFails(batch[..n]) && !EncodeFails(batch[n])
    ensures NoneFails(batch[..n + 1])
  {
  }

  lemma {:induction false} EncodedNext(batch: seq<KafkaRequest>, n: nat)
    requires n < |batch|
    ensures var m := batch[n];
            && Written(batch[..n + 1]) == Written(batch[..n]) + (if m.dummy then [] else [m])
            && InfosOf(ExpectingOf(batch[..n + 1]))
               == InfosOf(ExpectingOf(batch[..n])) + (if ResponseIsDummy(m) then [] else [InfoOf(m)])
  {
    assert batch[..n + 1][..n] == batch[..n];
  }

  /** What becomes of a message by its fault: all, its bytes or its bytes and header are there, and an error for two. */
  predicate FaultShows(m: KafkaRequest, replied: bool, ok: bool, dst: seq<KafkaRequest>, dst': seq<KafkaRequest>,
                       queue: seq<RequestInfo>, queue': seq<RequestInfo>)
  {
    && dst' == dst + [m]
    && match m.fault
       case NoFault => ok && queue' == if replied then queue + [InfoOf(m)] else queue
       case EncodingFails => !ok && queue' == if replied then queue + [InfoOf(m)] else queue
       case UnknownApiKey => ok != replied && queue' == queue
  }

  class KafkaEncoder {
    /**
      * `encode`: stops at the first message it cannot encode. Depending on where that message failed, it has left
      * bytes, or bytes and a header, behind.
      */
    method Encode(batch: seq<KafkaRequest>, dst: seq<KafkaRequest>, queue: seq<RequestInfo>)
      returns (n: nat, dst': seq<KafkaRequest>, queue': seq<RequestInfo>)
      ensures n <= |batch| && NoneFails(batch[..n])
      ensures n < |batch| ==> EncodeFails(batch[n])
      ensures dst' == dst + Written(batch[..n]) + if n < |batch| && LeavesBytes(batch[n]) then [batch[n]] else []
      ensures queue' == queue + InfosOf(ExpectingOf(batch[..n]))
                        + if n < |batch| && LeavesHeader(batch[n]) then [InfoOf(batch[n])] else []
    {
      n, dst', queue' := 0, dst, queue;
      while n < |batch|
        invariant n <= |batch| && NoneFails(batch[..n])
        invariant dst' == dst + Written(batch[..n])
        invariant queue' == queue + InfosOf(ExpectingOf(batch[..n]))
      {
        EncodedNext(batch, n);
        var ok;
        ok, dst', queue' := EncodeOne(batch[n], dst', queue');
        if !ok {
          return;
        }
        NoneFailsNext(batch, n);
        n := n + 1;
      }
    }

    /** The body of the loop. */
    method EncodeOne(m: KafkaRequest, dst: seq<KafkaRequest>, queue: seq<RequestInfo>)
      returns (ok: bool, dst': seq<KafkaRequest>, queue': seq<RequestInfo>)
      ensures ok <==> !EncodeFails(m)
      ensures m.dummy || m.raw ==> ok
      ensures !m.dummy && !m.raw ==>
        match m.api
        case SaslHandshake(version, mechanism) =>
          && (version == 0 && mechanism.OtherMechanism? ==> !ok && dst' == dst && queue' == queue)
          && (version != 0 || !mechanism.OtherMechanism? ==> FaultShows(m, true, ok, dst, dst', queue, queue'))
        case Produce(acks) => FaultShows(m, acks != 0, ok, dst, dst', queue, queue')
        case OtherApi => FaultShows(m, true, ok, dst, dst', queue, queue')
      ensures dst' == dst + if (if ok then m.dummy else !LeavesBytes(m)) then [] else [m]
      ensures queue' == queue + if (if ok then ResponseIsDummy(m) else !LeavesHeader(m)) then [] else [InfoOf(m)]
    {
      ok, dst', queue' := true, dst, queue;
      if m.dummy {
        return;
      }
      var expectRawSasl := None;
      if !m.raw && m.api.SaslHandshake? && m.api.version == 0 {
        expectRawSasl := FromName(m.api.mechanism);
        if expectRawSasl.None? {
          return false, dst', queue';
        }
      }
      dst' := dst' + [m];
      if !ResponseIsDummy(m) {
        if m.fault.UnknownApiKey? && !m.raw {
          return false, dst', queue';
        }
        queue' := queue' + [RequestInfo(m.id, expectRawSasl)];
      }
      ok := m.raw || !m.fault.EncodingFails?;
    }
  }

  // ---- raw SASL ---------------------------------------------------------------------------------------

  /** A message as the client wrote it. */
  datatype ClientMessage = ClientMessage(id: MessageId, api: Api)

  /** The source decoder: closed once it met a mechanism it does not know. */
  datatype Source = Reading(awaiting: Option<SaslState>) | Closed

  function ReadState(s: Source, c: ClientMessage): Source {
    if s.Closed? then Closed
    else if s.awaiting.Some? then Reading(Advance(s.awaiting))
    else if c.api.SaslHandshake? && c.api.version == 0 then
      if FromName(c.api.mechanism).Some? then Reading(FromName(c.api.mechanism)) else Closed
    else Reading(None)
  }

  /** The source's state after the client wrote `cs`. */
  function StateAfter(cs: seq<ClientMessage>): Source {
    if cs == [] then Reading(None) else ReadState(StateAfter(cs[..|cs| - 1]), cs[|cs| - 1])
  }

  /** The requests the source decoder makes of what the client wrote. */
  function ReadAll(cs: seq<ClientMessage>): seq<KafkaRequest> {
    if cs == [] then []
    else
      var init, c := cs[..|cs| - 1], cs[|cs| - 1];
      if StateAfter(cs).Closed? then ReadAll(init)
      else ReadAll(init) + [KafkaRequest(c.id, c.api, StateAfter(init).awaiting.Some?, false, NoFault)]
  }

  /** The sink decoder's state after a reply. */
  function SinkStep(awaiting: Option<SaslState>, info: RequestInfo): Option<SaslState> {
    if info.expectRawSasl.Some? then info.expectRawSasl else Advance(awaiting)
  }

  function SinkExpect(infos: seq<RequestInfo>): Option<SaslState> {
    if infos == [] then None else SinkStep(SinkExpect(infos[..|infos| - 1]), infos[|infos| - 1])
  }

  /** For each reply, whether the sink decoder reads it as raw SASL. */
  function SinkFlags(infos: seq<RequestInfo>): (flags: seq<bool>)
    ensures |flags| == |infos|
  {
    if infos == [] then []
    else SinkFlags(infos[..|infos| - 1]) + [SinkExpect(infos[..|infos| - 1]).Some?]
  }

  class KafkaDecoder {
    var expectRawSasl: Option<SaslState>

    constructor ()
      ensures expectRawSasl == None
    {
      expectRawSasl := None;
    }

    /** `decode` in a source: the request, or `None` for the error that closes the connection. */
    method DecodeRequest(c: ClientMessage) returns (m: Option<KafkaRequest>)
      modifies this
      ensures m.None? <==> ReadState(Reading(old(expectRawSasl)), c).Closed?
      ensures m.Some? ==>
        && m.value == KafkaRequest(c.id, c.api, old(expectRawSasl).Some?, false, NoFault)
        && ReadState(Reading(old(expectRawSasl)), c) == Reading(expectRawSasl)
    {
      var raw := expectRawSasl.Some?;
      expectRawSasl := Advance(expectRawSasl);
      if !raw && c.api.SaslHandshake? && c.api.version == 0 {
        var named := FromName(c.api.mechanism);
        if named.None? {
          return None;
        }
        expectRawSasl := named;
      }
      m := Some(KafkaRequest(c.id, c.api, raw, false, NoFault));
    }

    /** `decode` in a sink: the id the reply is tagged with, and whether it is read as raw SASL. */
    method DecodeReply(info: RequestInfo) returns (id: MessageId, raw: bool)
      modifies this
      ensures id == info.id && raw == old(expectRawSasl).Some?
      ensures expectRawSasl == SinkStep(old(expectRawSasl), info)
      ensures info.expectRawSasl.Some? ==> expectRawSasl == info.expectRawSasl
    {
      id, raw := info.id, expectRawSasl.Some?;
      expectRawSasl := Advance(expectRawSasl);
      if info.expectRawSasl.Some? {
        expectRawSasl := info.expectRawSasl;
      }
    }
  }

  /** What the transforms may do: replace requests with dummies. */
  predicate Dummied(read: seq<KafkaRequest>, sent: seq<KafkaRequest>) {
    && |sent| == |read|
    && forall i :: 0 <= i < |read| ==> sent[i] == read[i] || sent[i] == read[i].(dummy := true)
  }

  function RawFlags(ms: seq<KafkaRequest>): (flags: seq<bool>)
    ensures |flags| == |ms|
  {
    seq(|ms|, i requires 0 <= i < |ms| => ms[i].raw)
  }

  lemma {:induction false} AppendInfo(ms: seq<KafkaRequest>, m: KafkaRequest)
    ensures SinkExpect(InfosOf(ms + [m])) == SinkStep(SinkExpect(InfosOf(ms)), InfoOf(m))
    ensures SinkFlags(InfosOf(ms + [m])) == SinkFlags(InfosOf(ms)) + [SinkExpect(InfosOf(ms)).Some?]
  {
    var infos := InfosOf(ms + [m]);
    assert infos[..|infos| - 1] == InfosOf(ms);
  }

  /**
    * The sink decoder is where the source decoder is, or outside raw SASL; and it has read every reply as raw exactly
    * when the request was.
    */
  ghost predicate InStep(source: Source, sent: seq<KafkaRequest>) {
    var replied := ExpectingOf(sent);
    && (source.Reading? ==> SinkExpect(InfosOf(replied)) == source.awaiting || SinkExpect(InfosOf(replied)).None?)
    && SinkFlags(InfosOf(replied)) == RawFlags(replied)
  }

  /** In step at every point of a run. */
  ghost predicate InStepThroughout(cs: seq<ClientMessage>, sent: seq<KafkaRequest>)
    requires |sent| == |ReadAll(cs)|
  {
    cs != [] ==> InStepThroughout(cs[..|cs| - 1], sent[..|ReadAll(cs[..|cs| - 1])|]) && InStep(StateAfter(cs), sent)
  }

  /** The last request that is not a raw SASL message was dropped. */
  predicate Dropping(cs: seq<ClientMessage>, sent: seq<KafkaRequest>)
    requires |sent| == |ReadAll(cs)|
  {
    cs != [] &&
      var init := cs[..|cs| - 1];
      if StateAfter(cs).Closed? || sent[|sent| - 1].raw then Dropping(init, sent[..|ReadAll(init)|])
      else sent[|sent| - 1].dummy
  }

  /** A handshake is dropped together with all its raw messages, or none of them is. */
  predicate WholeGroups(cs: seq<ClientMessage>, sent: seq<KafkaRequest>)
    requires |sent| == |ReadAll(cs)|
  {
    cs != [] ==>
      var init := cs[..|cs| - 1];
      var before := sent[..|ReadAll(init)|];
      && WholeGroups(init, before)
      && (StateAfter(cs).Reading? && sent[|sent| - 1].raw ==> (sent[|sent| - 1].dummy <==> Dropping(init, before)))
  }

  /** Where the sink decoder is: outside raw SASL if the messages now due belong to a handshake that was dropped. */
  ghost predicate Following(source: Source, dropping: bool, sent: seq<KafkaRequest>) {
    var replied := ExpectingOf(sent);
    && (source.Reading? ==> SinkExpect(InfosOf(replied)) == if dropping then None else source.awaiting)
    && SinkFlags(InfosOf(replied)) == RawFlags(replied)
  }

  function AsRead(source: Source, c: ClientMessage): KafkaRequest
    requires source.Reading?
  {
    KafkaRequest(c.id, c.api, source.awaiting.Some?, false, NoFault)
  }

  lemma {:induction false} Replied(sent: seq<KafkaRequest>, m: KafkaRequest)
    ensures ResponseIsDummy(m) ==> ExpectingOf(sent + [m]) == ExpectingOf(sent)
    ensures !ResponseIsDummy(m) ==>
      var before, after := ExpectingOf(sent), ExpectingOf(sent + [m]);
      && SinkExpect(InfosOf(after)) == SinkStep(SinkExpect(InfosOf(before)), InfoOf(m))
      && (SinkFlags(InfosOf(after)) == RawFlags(after)
          <==> SinkFlags(InfosOf(before)) == RawFlags(before) && m.raw == SinkExpect(InfosOf(before)).Some?)
  {
    assert (sent + [m])[..|sent|] == sent;
    if !ResponseIsDummy(m) {
      var before := ExpectingOf(sent);
      AppendInfo(before, m);
      assert RawFlags(before + [m]) == RawFlags(before) + [m.raw];
      LastEqual(SinkFlags(InfosOf(before)), SinkExpect(InfosOf(before)).Some?, RawFlags(before), m.raw);
    }
  }

  lemma {:induction false} LastEqual(a: seq<bool>, x: bool, b: seq<bool>, y: bool)
    requires |a| == |b|
    ensures a + [x] == b + [y] <==> a == b && x == y
  {
    if a + [x] == b + [y] {
      assert a == (a + [x])[..|a|] && b == (b + [y])[..|b|];
      assert x == (a + [x])[|a|] && y == (b + [y])[|b|];
    }
  }

  /** One more request: the sink decoder follows on exactly if the request is dropped when its handshake was. */
  lemma {:induction false} OneMoreFollows(source: Source, c: ClientMessage, dropping: bool, sent: seq<KafkaRequest>,
                                          m: KafkaRequest)
    requires Following(source, dropping, sent) && ReadState(source, c).Reading?
    requires m == AsRead(source, c) || m == AsRead(source, c).(dummy := true)
    ensures InStep(ReadState(source, c), sent + [m]) <==> (m.raw ==> (m.dummy <==> dropping))
    ensures InStep(ReadState(source, c), sent + [m]) ==>
      Following(ReadState(source, c), if m.raw then dropping else m.dummy, sent + [m])
  {
    Replied(sent, m);
  }

  /**
    * The two decoders are in step throughout a run, with any requests replaced by dummies, exactly if every handshake
    * was dropped together with all its raw messages, or not at all.
    */
  lemma {:induction false} SaslInStepExactly(cs: seq<ClientMessage>, sent: seq<KafkaRequest>)
    requires Dummied(ReadAll(cs), sent)
    ensures InStepThroughout(cs, sent) <==> WholeGroups(cs, sent)
    ensures WholeGroups(cs, sent) ==> Following(StateAfter(cs), Dropping(cs, sent), sent)
    ensures WholeGroups(cs, sent) ==> SinkFlags(InfosOf(ExpectingOf(sent))) == RawFlags(ExpectingOf(sent))
  {
    if cs != [] {
      var init, c := cs[..|cs| - 1], cs[|cs| - 1];
      var before := sent[..|ReadAll(init)|];
      if StateAfter(cs).Closed? {
        assert before == sent;
        SaslInStepExactly(init, sent);
      } else {
        var m := sent[|sent| - 1];
        assert ReadAll(cs)[..|before|] == ReadAll(init);
        SaslInStepExactly(init, before);
        assert sent == before + [m];
        if WholeGroups(init, before) {
          OneMoreFollows(StateAfter(init), c, Dropping(init, before), before, m);
        }
      }
    }
  }

  lemma {:induction false} AppendRead(cs: seq<ClientMessage>, c: ClientMessage)
    ensures StateAfter(cs + [c]) == ReadState(StateAfter(cs), c)
    ensures StateAfter(cs + [c]).Reading? ==>
      ReadAll(cs + [c]) == ReadAll(cs) + [KafkaRequest(c.id, c.api, StateAfter(cs).awaiting.Some?, false, NoFault)]
  {
    assert (cs + [c])[..|cs|] == cs;
  }

  /** How many raw messages follow a handshake: one for PLAIN, two for SCRAM; none after any other request. */
  lemma {:induction false} RawMessagesFollow(cs: seq<ClientMessage>, m: ClientMessage, a: ClientMessage,
                                             b: ClientMessage)
    requires StateAfter(cs) == Reading(None)
    ensures var one, two, three := cs + [m], cs + [m] + [a], cs + [m] + [a] + [b];
            match m.api
            case SaslHandshake(version, mechanism) =>
              if version != 0 then StateAfter(one) == Reading(None)
              else
                (match mechanism
                 case Plain => StateAfter(one) == Reading(Some(PlainNext)) && StateAfter(two) == Reading(None)
                 case OtherMechanism => StateAfter(one) == Closed
                 case _ =>
                   && StateAfter(one) == Reading(Some(ScramFirst)) && StateAfter(two) == Reading(Some(ScramFinal))
                   && StateAfter(three) == Reading(None))
            case _ => StateAfter(one) == Reading(None)
  {
    AppendRead(cs, m);
    AppendRead(cs + [m], a);
    AppendRead(cs + [m] + [a], b);
  }

  lemma {:induction false} ScramRead(scram: ClientMessage, other: ClientMessage)
    requires scram.api == SaslHandshake(0, ScramSha256)
    ensures var m := KafkaRequest(other.id, other.api, true, false, NoFault);
            ReadAll([scram] + [other] + [other])
            == [KafkaRequest(scram.id, scram.api, false, false, NoFault), m, m]
    ensures StateAfter([scram] + [other] + [other]) == Reading(None)
  {
    assert [] + [scram] == [scram];
    AppendRead([], scram);
    AppendRead([scram], other);
    AppendRead([scram] + [other], other);
  }

  /** The condition on transforms is needed: a SCRAM message turned into a dummy puts the two decoders out of step. */
  lemma {:induction false} DroppedScramDesynchronises(scram: ClientMessage, other: ClientMessage)
    requires scram.api == SaslHandshake(0, ScramSha256)
    ensures var cs := [scram] + [other] + [other];
            |ReadAll(cs)| == 3 && !InStep(StateAfter(cs), ReadAll(cs)[1 := ReadAll(cs)[1].(dummy := true)])
  {
    ScramRead(scram, other);
    var m0 := KafkaRequest(scram.id, scram.api, false, false, NoFault);
    var m := KafkaRequest(other.id, other.api, true, false, NoFault);
    var d := KafkaRequest(other.id, other.api, true, true, NoFault);
    assert [m0, m, m][1 := d] == [m0] + [d] + [m];
    ExpectingConcat([m0] + [d], [m]);
    ExpectingConcat([m0], [d]);
    assert ExpectingOf([m0]) == [m0] && ExpectingOf([d]) == [] && ExpectingOf([m]) == [m];
    assert [m0] + [] == [m0] && [] + [m0] == [m0];
    AppendInfo([], m0);
    AppendInfo([m0], m);
  }
}
