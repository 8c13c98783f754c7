/** A Kafka sink connection end to end: handle, encoder, server, decoder and dummy inserter. */
module KafkaSink {
  import opened Messages
  import opened DummyInserter
  import opened InserterRuns
  import opened KafkaCodec

  /**
    * `all` was handed to the connection, the first `encoded` of it to the encoder. A written request is with the
    * `server`; if the server replies to it, its reply is then on the `wire`, and then it is `done`: decoded.
    * `inbox` waits for the handle, and `events` are the calls of the inserter so far.
    */
  datatype Sink = Sink(
    all: seq<KafkaRequest>, encoded: nat, queue: seq<RequestInfo>,
    server: seq<KafkaRequest>, wire: seq<KafkaRequest>, done: seq<KafkaRequest>,
    awaiting: Option<SaslState>, rawReads: seq<bool>,
    inbox: seq<Response>, events: seq<Event>)

  const idle := Sink([], 0, [], [], [], [], None, [], [], [])

  /** A receive takes all that is in the inbox, or one batch that it waited for and leaves what came in behind it. */
  datatype Move = Send(requests: seq<KafkaRequest>) | Encode | Serve | Decode | Receive(count: nat)

  function AsRequests(ms: seq<KafkaRequest>): (rs: seq<Request>)
    ensures |rs| == |ms|
  {
    seq(|ms|, i requires 0 <= i < |ms| => Request(ms[i].id, ResponseIsDummy(ms[i])))
  }

  /** What the server says in reply to `m`, named after the request it answers. */
  function ServerReply(m: KafkaRequest): Body {
    Content(m.id)
  }

  /** What the broker does with a request it was sent: it answers everything but a produce with `acks` of 0. */
  predicate BrokerReplies(m: KafkaRequest) {
    m.raw || match m.api case Produce(acks) => acks != 0 case _ => true
  }

  /** The requests the broker will answer. */
  function BrokerOwes(ms: seq<KafkaRequest>): seq<KafkaRequest> {
    if ms == [] then []
    else if BrokerReplies(ms[0]) then [ms[0]] + BrokerOwes(ms[1..])
    else BrokerOwes(ms[1..])
  }

  predicate Possible(s: Sink, m: Move) {
    match m
    case Send(_) => true
    case Encode => s.encoded < |s.all| && !EncodeFails(s.all[s.encoded])
    case Serve => s.server != []
    case Decode => s.wire != [] && s.queue != []
    case Receive(n) => n <= |s.inbox|
  }

  /** The part of a move that depends on the request next to be encoded. */
  function EncodeNext(s: Sink, m: KafkaRequest): Sink {
    s.(encoded := s.encoded + 1,
       queue := s.queue + if ResponseIsDummy(m) then [] else [InfoOf(m)],
       server := s.server + if m.dummy then [] else [m])
  }

  function DecodeNext(s: Sink): Sink
    requires s.wire != [] && s.queue != []
  {
    var info := s.queue[0];
    s.(queue := s.queue[1..], wire := s.wire[1..], done := s.done + [s.wire[0]],
       inbox := s.inbox + [Response(Some(info.id), ServerReply(s.wire[0]))],
       rawReads := s.rawReads + [s.awaiting.Some?], awaiting := SinkStep(s.awaiting, info))
  }

  function Next(s: Sink, m: Move): Sink
    requires Possible(s, m)
  {
    match m
    case Send(ms) => s.(all := s.all + ms, events := s.events + [Sent(AsRequests(ms))])
    case Encode => EncodeNext(s, s.all[s.encoded])
    case Serve =>
      s.(server := s.server[1..], wire := s.wire + if BrokerReplies(s.server[0]) then [s.server[0]] else [])
    case Decode => DecodeNext(s)
    case Receive(n) => s.(inbox := s.inbox[n..], events := s.events + [Arrived(s.inbox[..n])])
  }

  ghost predicate IsRun(states: seq<Sink>, moves: seq<Move>) {
    && |states| == |moves| + 1 && states[0] == idle
    && forall i :: 0 <= i < |moves| ==> Possible(states[i], moves[i]) && states[i + 1] == Next(states[i], moves[i])
  }

  // ---- the header queue ---------------------------------------------------------------------------------

  function OwnReply(m: KafkaRequest): Response {
    Response(Some(m.id), ServerReply(m))
  }

  function OwnReplies(ms: seq<KafkaRequest>): (rs: seq<Response>)
    ensures |rs| == |ms|
  {
    seq(|ms|, i requires 0 <= i < |ms| => OwnReply(ms[i]))
  }

  /** The queue holds exactly the headers of the replies on the wire and of those the broker will still send. */
  ghost predicate Queued(s: Sink) {
    && s.encoded <= |s.all|
    && ExpectingOf(s.all[..s.encoded]) == s.done + (s.wire + BrokerOwes(s.server))
    && s.queue == InfosOf(s.wire + BrokerOwes(s.server))
    && forall i :: 0 <= i < |s.server| ==> !s.server[i].dummy
  }

  /** The encoder's idea of who gets a reply is the broker's. */
  lemma {:induction false} DummyExactly(m: KafkaRequest)
    requires !m.dummy
    ensures ResponseIsDummy(m) <==> !BrokerReplies(m)
  {
  }

  lemma {:induction false} OwedAppended(ms: seq<KafkaRequest>, m: KafkaRequest)
    ensures BrokerOwes(ms + [m]) == BrokerOwes(ms) + if BrokerReplies(m) then [m] else []
    decreases |ms|
  {
    if ms == [] {
      assert [m][1..] == [];
    } else {
      OwedAppended(ms[1..], m);
      assert (ms + [m])[1..] == ms[1..] + [m];
    }
  }

  /** Everything decoded was tagged with its own request's id, and is with the inserter or in the inbox. */
  ghost predicate Tagged(s: Sink) {
    && AllArrived(s.events) + s.inbox == OwnReplies(s.done)
    && AllSent(s.events) == SlotsOf(AsRequests(s.all))
  }

  ghost predicate ReadInStep(s: Sink) {
    && s.awaiting == SinkExpect(InfosOf(s.done))
    && s.rawReads == SinkFlags(InfosOf(s.done))
  }

  lemma {:induction false} EncodeKeepsQueued(s: Sink)
    requires Queued(s) && Possible(s, Encode)
    ensures Queued(Next(s, Encode))
  {
    var m, owed := s.all[s.encoded], BrokerOwes(s.server);
    assert s.all[..s.encoded + 1][..s.encoded] == s.all[..s.encoded];
    OwedAppended(s.server, m);
    if !m.dummy {
      DummyExactly(m);
    }
    if ResponseIsDummy(m) {
      assert s.queue + [] == s.queue && s.server + [] == s.server && owed + [] == owed;
    } else {
      Regrouped(s.wire, owed, [m]);
      Regrouped(s.done, s.wire + owed, [m]);
      assert InfosOf(s.wire + owed + [m]) == InfosOf(s.wire + owed) + [InfoOf(m)];
    }
  }

  lemma {:induction false} ServeKeepsQueued(s: Sink)
    requires Queued(s) && Possible(s, Serve)
    ensures Queued(Next(s, Serve))
  {
    var m, owed := s.server[0], BrokerOwes(s.server[1..]);
    if BrokerReplies(m) {
      Regrouped(s.wire, [m], owed);
    } else {
      assert s.wire + [] == s.wire;
    }
  }

  lemma {:induction false} DecodeKeepsQueued(s: Sink)
    requires Queued(s) && Possible(s, Decode)
    ensures Queued(Next(s, Decode)) && s.queue[0] == InfoOf(s.wire[0])
  {
    var owed := BrokerOwes(s.server);
    var rest := s.wire[1..] + owed;
    assert s.wire + owed == [s.wire[0]] + rest;
    assert s.done + (s.wire + owed) == s.done + [s.wire[0]] + rest;
    assert s.queue[1..] == InfosOf(rest);
  }

  lemma {:induction false} SendKeepsQueued(s: Sink, ms: seq<KafkaRequest>)
    requires Queued(s)
    ensures Queued(Next(s, Send(ms)))
  {
    assert (s.all + ms)[..s.encoded] == s.all[..s.encoded];
  }

  lemma {:induction false} AsRequestsConcat(a: seq<KafkaRequest>, b: seq<KafkaRequest>)
    ensures AsRequests(a + b) == AsRequests(a) + AsRequests(b)
  {
  }

  lemma {:induction false} SendKeepsTagged(s: Sink, ms: seq<KafkaRequest>)
    requires Tagged(s)
    ensures Tagged(Next(s, Send(ms)))
  {
    var e := Sent(AsRequests(ms));
    EventAppended(s.events, e);
    assert AllArrived(s.events) + [] == AllArrived(s.events);
    AsRequestsConcat(s.all, ms);
    SlotsOfConcat(AsRequests(s.all), AsRequests(ms));
  }

  lemma {:induction false} TakenFromInbox(arrived: seq<Response>, inbox: seq<Response>, n: nat)
    requires n <= |inbox|
    ensures arrived + inbox[..n] + inbox[n..] == arrived + inbox
  {
    Regrouped(arrived, inbox[..n], inbox[n..]);
    assert inbox[..n] + inbox[n..] == inbox;
  }

  lemma {:induction false} ReceiveKeepsTagged(s: Sink, n: nat)
    requires Tagged(s) && n <= |s.inbox|
    ensures Tagged(Next(s, Receive(n)))
  {
    EventAppended(s.events, Arrived(s.inbox[..n]));
    TakenFromInbox(AllArrived(s.events), s.inbox, n);
    assert AllSent(s.events) + [] == AllSent(s.events);
  }

  lemma {:induction false} DecodeKeepsTagged(s: Sink)
    requires Tagged(s) && Possible(s, Decode) && s.queue[0] == InfoOf(s.wire[0])
    ensures Tagged(Next(s, Decode))
  {
    var r := OwnReply(s.wire[0]);
    assert AllArrived(s.events) + (s.inbox + [r]) == AllArrived(s.events) + s.inbox + [r];
    assert OwnReplies(s.done + [s.wire[0]]) == OwnReplies(s.done) + [r];
  }

  lemma {:induction false} DecodeKeepsStep(s: Sink)
    requires ReadInStep(s) && Possible(s, Decode) && s.queue[0] == InfoOf(s.wire[0])
    ensures ReadInStep(Next(s, Decode))
  {
    AppendInfo(s.done, s.wire[0]);
  }

  lemma {:induction false} MoveKeeps(s: Sink, m: Move)
    requires Queued(s) && Tagged(s) && ReadInStep(s) && Possible(s, m)
    ensures Queued(Next(s, m)) && Tagged(Next(s, m)) && ReadInStep(Next(s, m))
  {
    match m
    case Send(ms) =>
      SendKeepsQueued(s, ms);
      SendKeepsTagged(s, ms);
    case Encode => EncodeKeepsQueued(s);
    case Serve => ServeKeepsQueued(s);
    case Decode =>
      DecodeKeepsQueued(s);
      DecodeKeepsTagged(s);
      DecodeKeepsStep(s);
    case Receive(n) => ReceiveKeepsTagged(s, n);
  }

  /** Over every run; and the decoder never finds the queue empty when a reply is there to be read. */
  lemma {:induction false} QueueHoldsUnanswered(states: seq<Sink>, moves: seq<Move>, i: nat)
    requires IsRun(states, moves) && i < |states|
    ensures Queued(states[i]) && Tagged(states[i]) && ReadInStep(states[i])
    ensures states[i].wire != [] ==> states[i].queue != []
  {
    if i > 0 {
      QueueHoldsUnanswered(states, moves, i - 1);
      MoveKeeps(states[i - 1], moves[i - 1]);
      assert states[i] == Next(states[i - 1], moves[i - 1]);
    }
  }

  // ---- the inserter's assumptions hold ----------------------------------------------------------------------

  lemma {:induction false} RealsAreExpecting(ms: seq<KafkaRequest>)
    ensures Reals(SlotsOf(AsRequests(ms))) == |ExpectingOf(ms)|
  {
    if ms != [] {
      var init := ms[..|ms| - 1];
      RealsAreExpecting(init);
      assert SlotsOf(AsRequests(ms))[..|ms| - 1] == SlotsOf(AsRequests(init));
    }
  }

  /** Done requests are a prefix of the ones sent that expect a reply. */
  lemma {:induction false} DoneIsPrefix(s: Sink)
    requires Queued(s)
    ensures s.done <= ExpectingOf(s.all)
  {
    ExpectingConcat(s.all[..s.encoded], s.all[s.encoded..]);
    assert s.all == s.all[..s.encoded] + s.all[s.encoded..];
  }

  ghost predicate InserterReady(s: Sink) {
    Legal(s.events) && PushFree(s.events)
  }

  lemma {:induction false} ArrivedBounded(s: Sink)
    requires Queued(s) && Tagged(s)
    ensures AllSolicited(AllArrived(s.events)) && Solicited(AllArrived(s.events)) <= Reals(AllSent(s.events))
  {
    var arrived := AllArrived(s.events);
    assert forall i :: 0 <= i < |arrived| ==> arrived[i] == OwnReplies(s.done)[i];
    SolicitedOfAll(arrived);
    DoneIsPrefix(s);
    RealsAreExpecting(s.all);
  }

  lemma {:induction false} LegalAppended(events: seq<Event>, e: Event)
    requires Legal(events) && PushFree(events)
    requires FromServer(ArrivedBy(e)) && AllSolicited(ArrivedBy(e))
    requires Solicited(AllArrived(events + [e])) <= Reals(AllSent(events + [e]))
    ensures Legal(events + [e]) && PushFree(events + [e])
  {
    assert (events + [e])[..|events|] == events;
  }

  lemma {:induction false} InboxFromServer(s: Sink)
    requires Tagged(s)
    ensures FromServer(s.inbox) && AllSolicited(s.inbox)
  {
    var arrived := AllArrived(s.events);
    forall i | 0 <= i < |s.inbox| ensures s.inbox[i] == OwnReply(s.done[|arrived| + i]) {
      assert (arrived + s.inbox)[|arrived| + i] == s.inbox[i];
    }
  }

  lemma {:induction false} MoveKeepsReady(s: Sink, m: Move, t: Sink)
    requires InserterReady(s) && Tagged(s) && Possible(s, m) && t == Next(s, m)
    requires Queued(t) && Tagged(t)
    ensures InserterReady(t)
  {
    ArrivedBounded(t);
    match m
    case Send(ms) => LegalAppended(s.events, Sent(AsRequests(ms)));
    case Receive(n) =>
      InboxFromServer(s);
      LegalAppended(s.events, Arrived(s.inbox[..n]));
    case _ =>
  }

  lemma {:induction false} RunKeepsReady(states: seq<Sink>, moves: seq<Move>, i: nat)
    requires IsRun(states, moves) && i < |states|
    ensures Queued(states[i]) && Tagged(states[i]) && InserterReady(states[i])
  {
    QueueHoldsUnanswered(states, moves, i);
    if i > 0 {
      RunKeepsReady(states, moves, i - 1);
      assert Possible(states[i - 1], moves[i - 1]) && states[i] == Next(states[i - 1], moves[i - 1]);
      MoveKeepsReady(states[i - 1], moves[i - 1], states[i]);
    }
  }

  // ---- end to end ---------------------------------------------------------------------------------------------

  /** The one reply a request should get: its server reply, or a dummy when there will be none. */
  function ReplyTo(m: KafkaRequest): Response {
    if m.dummy || !BrokerReplies(m) then DummyReply(m.id) else OwnReply(m)
  }

  function RepliesTo(ms: seq<KafkaRequest>): (rs: seq<Response>)
    ensures |rs| == |ms|
  {
    seq(|ms|, i requires 0 <= i < |ms| => ReplyTo(ms[i]))
  }

  lemma {:induction false} AnswersAreReplies(ms: seq<KafkaRequest>)
    ensures Reals(SlotsOf(AsRequests(ms))) == |ExpectingOf(ms)|
    ensures Answers(SlotsOf(AsRequests(ms)), OwnReplies(ExpectingOf(ms))) == RepliesTo(ms)
  {
    RealsAreExpecting(ms);
    if ms != [] {
      var init, m := ms[..|ms| - 1], ms[|ms| - 1];
      AnswersAreReplies(init);
      assert SlotsOf(AsRequests(ms))[..|ms| - 1] == SlotsOf(AsRequests(init));
      assert RepliesTo(ms) == RepliesTo(init) + [ReplyTo(m)];
      if !m.dummy {
        DummyExactly(m);
      }
      if !ResponseIsDummy(m) {
        var rs := OwnReplies(ExpectingOf(ms));
        assert rs[..|rs| - 1] == OwnReplies(ExpectingOf(init));
      }
    }
  }

  lemma {:induction false} ExpectingOfPrefix(a: seq<KafkaRequest>, b: seq<KafkaRequest>)
    requires a <= b
    ensures ExpectingOf(a) <= ExpectingOf(b)
  {
    ExpectingConcat(a, b[|a|..]);
    assert a + b[|a|..] == b;
  }

  /** The requests the inserter counts as answered, and what it has sent out for them. */
  lemma {:induction false} AnsweredSoFar(s: Sink, ms: seq<KafkaRequest>)
    requires Queued(s) && Tagged(s) && InserterReady(s)
    requires ms <= s.all && SlotsOf(AsRequests(ms)) == Run(s.events).answered
    ensures Run(s.events).output == RepliesTo(ms)
  {
    var arrived := AllArrived(s.events);
    PushFreeNeverClashes(s.events);
    RunConserves(s.events);
    RunInOrderExactly(s.events);
    OutputSolicited(s.events);
    SolicitedOfAll(Run(s.events).output);
    ArrivedBounded(s);
    SolicitedOfAll(arrived);
    DoneIsPrefix(s);
    ExpectingOfPrefix(ms, s.all);
    RealsAreExpecting(ms);
    assert arrived == OwnReplies(ExpectingOf(ms)) by {
      assert |arrived| == |ExpectingOf(ms)|;
      forall i | 0 <= i < |arrived| ensures arrived[i] == OwnReplies(ExpectingOf(ms))[i] {
        assert arrived[i] == OwnReplies(s.done)[i];
        assert s.done[i] == ExpectingOf(s.all)[i] == ExpectingOf(ms)[i];
      }
    }
    AnswersAreReplies(ms);
  }

  /** What has left, and what is pending, split the requests. */
  ghost predicate SplitAt(s: Sink, n: nat) {
    && n <= |s.all| && Run(s.events).output == RepliesTo(s.all[..n])
    && Run(s.events).pending == SlotsOf(AsRequests(s.all[n..]))
  }

  lemma {:induction false} OutputSplits(s: Sink) returns (n: nat)
    requires Queued(s) && Tagged(s) && InserterReady(s)
    ensures SplitAt(s, n)
    ensures n < |s.all| && s.events != [] && s.events[|s.events| - 1].Arrived? ==> !ResponseIsDummy(s.all[n])
  {
    RunConserves(s.events);
    n := |Run(s.events).answered|;
    var slots := SlotsOf(AsRequests(s.all));
    assert slots == Run(s.events).answered + Run(s.events).pending;
    SlotsSplit(s.all, n);
    AnsweredSoFar(s, s.all[..n]);
    assert n < |s.all| ==> slots[n] == Run(s.events).pending[0];
  }

  lemma {:induction false} SlotsSplit(ms: seq<KafkaRequest>, n: nat)
    requires n <= |ms|
    ensures SlotsOf(AsRequests(ms[..n])) == SlotsOf(AsRequests(ms))[..n]
    ensures SlotsOf(AsRequests(ms[n..])) == SlotsOf(AsRequests(ms))[n..]
  {
  }

  /**
    * In every state of every run, what has left the connection is exactly the replies to a prefix of the
    * requests, in order and once each; the rest is still pending, and once a call has been made for the
    * replies at hand, it starts with a request whose reply is still to come.
    */
  lemma {:induction false} RepliesInRequestOrder(states: seq<Sink>, moves: seq<Move>, i: nat) returns (n: nat)
    requires IsRun(states, moves) && i < |states|
    ensures SplitAt(states[i], n)
    ensures n < |states[i].all| && i > 0 && moves[i - 1].Receive? ==> !ResponseIsDummy(states[i].all[n])
  {
    RunKeepsReady(states, moves, i);
    n := OutputSplits(states[i]);
    if i > 0 && moves[i - 1].Receive? {
      assert states[i] == Next(states[i - 1], moves[i - 1]);
    }
  }

  /** Over a run that began at a client, replies are read as raw SASL exactly when their requests were. */
  lemma {:induction false} SaslEndToEnd(states: seq<Sink>, moves: seq<Move>, i: nat, cs: seq<ClientMessage>)
    requires IsRun(states, moves) && i < |states|
    requires Dummied(ReadAll(cs), states[i].all) && WholeGroups(cs, states[i].all)
    ensures states[i].rawReads == RawFlags(states[i].done)
  {
    var s := states[i];
    QueueHoldsUnanswered(states, moves, i);
    DoneIsPrefix(s);
    SaslInStepExactly(cs, s.all);
    FlagsOfPrefix(s.done, ExpectingOf(s.all));
  }

  lemma {:induction false} FlagsOfPrefix(a: seq<KafkaRequest>, b: seq<KafkaRequest>)
    requires a <= b && SinkFlags(InfosOf(b)) == RawFlags(b)
    ensures SinkFlags(InfosOf(a)) == RawFlags(a)
  {
    if |a| < |b| {
      var init, m := b[..|b| - 1], b[|b| - 1];
      assert b == init + [m];
      AppendInfo(init, m);
      assert RawFlags(b)[..|b| - 1] == RawFlags(init);
      assert SinkFlags(InfosOf(b))[..|b| - 1] == SinkFlags(InfosOf(init));
      FlagsOfPrefix(a, init);
    } else {
      assert a == b;
    }
  }
}
