/** The query filter on top of a sink connection: the connection keeps the promise the filter relies on. */
module FilteredSink {
  import opened Messages
  import opened DummyInserter
  import opened DummyPlacement
  import opened InserterRuns
  import opened FairReplies
  import opened QueryFilter

  datatype Turn = Ask(queries: seq<Query>) | Arrive(batch: seq<Response>)

  function Sink(f: Filter, qs: seq<Query>): (rs: seq<Request>)
    ensures |rs| == |qs|
  {
    seq(|qs|, i requires 0 <= i < |qs| => Request(qs[i].id, Denied(f, qs[i])))
  }

  /** The calls of the connection's inserter. */
  function Events(f: Filter, turns: seq<Turn>): seq<Event> {
    if turns == [] then [] else Events(f, turns[..|turns| - 1]) + [EventOf(f, turns[|turns| - 1])]
  }

  function EventOf(f: Filter, t: Turn): Event {
    if t.Ask? then Sent(Sink(f, t.queries)) else Arrived(t.batch)
  }

  function Asks(qs: seq<Query>): (hs: seq<Happening>)
    ensures |hs| == |qs|
  {
    if qs == [] then [] else Asks(qs[..|qs| - 1]) + [Asked(qs[|qs| - 1])]
  }

  function Answereds(rs: seq<Response>): (hs: seq<Happening>)
    ensures |hs| == |rs|
  {
    if rs == [] then [] else Answereds(rs[..|rs| - 1]) + [Answered(rs[|rs| - 1])]
  }

  /** What the inserter gives out for a batch. */
  function Given(s: RunState, batch: seq<Response>): seq<Response> {
    if Solicited(batch) > Reals(s.pending) then [] else Merged(s.pending, batch)
  }

  /** The same run as the filter sees it. */
  function Happenings(f: Filter, turns: seq<Turn>): seq<Happening> {
    if turns == [] then []
    else
      var init := turns[..|turns| - 1];
      Happenings(f, init) + Seen(Run(Events(f, init)), turns[|turns| - 1])
  }

  function Seen(s: RunState, t: Turn): seq<Happening> {
    if t.Ask? then Asks(t.queries) else Answereds(Given(s, t.batch))
  }

  function AskedSeq(hs: seq<Happening>): seq<Query> {
    if hs == [] then []
    else if hs[|hs| - 1].Asked? then AskedSeq(hs[..|hs| - 1]) + [hs[|hs| - 1].query]
    else AskedSeq(hs[..|hs| - 1])
  }

  function AllAsked(turns: seq<Turn>): seq<Query> {
    if turns == [] then []
    else if turns[|turns| - 1].Ask? then AllAsked(turns[..|turns| - 1]) + turns[|turns| - 1].queries
    else AllAsked(turns[..|turns| - 1])
  }

  // ---- the filter's view of the run --------------------------------------------------------------------------

  lemma {:induction false} ViewConcat(a: seq<Happening>, b: seq<Happening>)
    ensures FromBelow(a + b) == FromBelow(a) + FromBelow(b)
    ensures AskedSeq(a + b) == AskedSeq(a) + AskedSeq(b)
  {
    if b == [] {
      assert a + b == a;
    } else {
      ViewConcat(a, b[..|b| - 1]);
      assert (a + b)[..|a + b| - 1] == a + b[..|b| - 1];
    }
  }

  lemma {:induction false} ViewOfAsks(qs: seq<Query>)
    ensures FromBelow(Asks(qs)) == [] && AskedSeq(Asks(qs)) == qs
  {
    if qs != [] {
      var init := qs[..|qs| - 1];
      ViewOfAsks(init);
      assert Asks(qs)[..|init|] == Asks(init);
      assert init + [qs[|qs| - 1]] == qs;
    }
  }

  lemma {:induction false} ViewOfAnswereds(rs: seq<Response>)
    ensures FromBelow(Answereds(rs)) == rs && AskedSeq(Answereds(rs)) == []
  {
    if rs != [] {
      var init := rs[..|rs| - 1];
      ViewOfAnswereds(init);
      assert Answereds(rs)[..|init|] == Answereds(init);
      assert init + [rs[|rs| - 1]] == rs;
    }
  }

  lemma {:induction false} AsksView(hs: seq<Happening>, qs: seq<Query>)
    ensures FromBelow(hs + Asks(qs)) == FromBelow(hs) && AskedSeq(hs + Asks(qs)) == AskedSeq(hs) + qs
  {
    ViewConcat(hs, Asks(qs));
    ViewOfAsks(qs);
    assert FromBelow(hs) + [] == FromBelow(hs);
  }

  lemma {:induction false} AnsweredsView(hs: seq<Happening>, rs: seq<Response>)
    ensures FromBelow(hs + Answereds(rs)) == FromBelow(hs) + rs && AskedSeq(hs + Answereds(rs)) == AskedSeq(hs)
  {
    ViewConcat(hs, Answereds(rs));
    ViewOfAnswereds(rs);
    assert AskedSeq(hs) + [] == AskedSeq(hs);
  }

  ghost predicate Agree(events: seq<Event>, hs: seq<Happening>, f: Filter, asked: seq<Query>) {
    && FromBelow(hs) == Run(events).output && AskedSeq(hs) == asked
    && SlotsOf(Sink(f, asked)) == AllSent(events)
  }

  lemma {:induction false} AskAgrees(events: seq<Event>, hs: seq<Happening>, f: Filter, asked: seq<Query>,
                                     qs: seq<Query>)
    requires Agree(events, hs, f, asked)
    ensures Agree(events + [Sent(Sink(f, qs))], hs + Asks(qs), f, asked + qs)
  {
    AsksView(hs, qs);
    SentAgrees(events, Sink(f, qs));
    SinkConcat(f, asked, qs);
    SlotsOfConcat(Sink(f, asked), Sink(f, qs));
  }

  lemma {:induction false} SinkConcat(f: Filter, a: seq<Query>, b: seq<Query>)
    ensures Sink(f, a + b) == Sink(f, a) + Sink(f, b)
  {
  }

  lemma {:induction false} SentAgrees(events: seq<Event>, rs: seq<Request>)
    ensures Run(events + [Sent(rs)]).output == Run(events).output
    ensures AllSent(events + [Sent(rs)]) == AllSent(events) + SlotsOf(rs)
  {
    RunAppended(events, Sent(rs));
    EventAppended(events, Sent(rs));
  }

  lemma {:induction false} StepGives(s: RunState, batch: seq<Response>)
    ensures Step(s, Arrived(batch)).output == s.output + Given(s, batch)
  {
    assert s.output + [] == s.output;
  }

  lemma {:induction false} GivenAgrees(events: seq<Event>, batch: seq<Response>)
    ensures Run(events + [Arrived(batch)]).output == Run(events).output + Given(Run(events), batch)
    ensures AllSent(events + [Arrived(batch)]) == AllSent(events)
  {
    RunAppended(events, Arrived(batch));
    EventAppended(events, Arrived(batch));
    StepGives(Run(events), batch);
    assert AllSent(events) + [] == AllSent(events);
  }

  lemma {:induction false} ArriveAgrees(events: seq<Event>, hs: seq<Happening>, f: Filter, asked: seq<Query>,
                                        batch: seq<Response>)
    requires Agree(events, hs, f, asked)
    ensures Agree(events + [Arrived(batch)], hs + Answereds(Given(Run(events), batch)), f, asked)
  {
    AnsweredsView(hs, Given(Run(events), batch));
    GivenAgrees(events, batch);
  }

  lemma {:induction false} ViewsAgree(f: Filter, turns: seq<Turn>)
    ensures Agree(Events(f, turns), Happenings(f, turns), f, AllAsked(turns))
  {
    if turns != [] {
      var init := turns[..|turns| - 1];
      ViewsAgree(f, init);
      match turns[|turns| - 1]
      case Ask(qs) => AskAgrees(Events(f, init), Happenings(f, init), f, AllAsked(init), qs);
      case Arrive(batch) => ArriveAgrees(Events(f, init), Happenings(f, init), f, AllAsked(init), batch);
    }
  }

  // ---- the promise is kept ----------------------------------------------------------------------------------

  function Slots(f: Filter, qs: seq<Query>): seq<Slot> {
    SlotsOf(Sink(f, qs))
  }

  function QueryIds(qs: seq<Query>): set<MessageId> {
    if qs == [] then {} else QueryIds(qs[..|qs| - 1]) + {qs[|qs| - 1].id}
  }

  predicate DistinctIds(qs: seq<Query>) {
    qs != [] ==> DistinctIds(qs[..|qs| - 1]) && qs[|qs| - 1].id !in QueryIds(qs[..|qs| - 1])
  }

  lemma {:induction false} DistinctAppended(qs: seq<Query>, q: Query)
    ensures QueryIds(qs + [q]) == QueryIds(qs) + {q.id}
    ensures DistinctIds(qs + [q]) <==> DistinctIds(qs) && q.id !in QueryIds(qs)
  {
    assert (qs + [q])[..|qs|] == qs;
  }

  lemma {:induction false} DistinctQueriesPrefix(a: seq<Query>, b: seq<Query>)
    requires DistinctIds(a + b)
    ensures DistinctIds(a)
  {
    if b == [] {
      assert a + b == a;
    } else {
      assert (a + b)[..|a + b| - 1] == a + b[..|b| - 1];
      DistinctQueriesPrefix(a, b[..|b| - 1]);
    }
  }

  function SlotFor(f: Filter, q: Query): Slot {
    if Denied(f, q) then Synthetic(q.id) else Real(q.id)
  }

  lemma {:induction false} SlotsLast(f: Filter, qs: seq<Query>)
    requires qs != []
    ensures Slots(f, qs) == Slots(f, qs[..|qs| - 1]) + [SlotFor(f, qs[|qs| - 1])]
  {
  }

  lemma {:induction false} SlotSetsAppended(p: seq<Slot>, slot: Slot)
    ensures RealSet(p + [slot]) == RealSet(p) + if slot.Real? then {slot.id} else {}
    ensures SyntheticSet(p + [slot]) == SyntheticSet(p) + if slot.Synthetic? then {slot.id} else {}
    ensures DistinctSlots(p + [slot]) <==> DistinctSlots(p) && slot.id !in RealSet(p) + SyntheticSet(p)
  {
    assert (p + [slot])[..|p|] == p;
  }

  lemma {:induction false} SlotsDistinct(f: Filter, qs: seq<Query>)
    requires DistinctIds(qs)
    ensures DistinctSlots(Slots(f, qs)) && RealSet(Slots(f, qs)) + SyntheticSet(Slots(f, qs)) == QueryIds(qs)
  {
    if qs != [] {
      var init, q := qs[..|qs| - 1], qs[|qs| - 1];
      SlotsDistinct(f, init);
      SlotsLast(f, qs);
      SlotSetsAppended(Slots(f, init), SlotFor(f, q));
    }
  }

  /** The real slots are the queries allowed, the synthetic ones the queries denied. */
  ghost predicate SameQueries(f: Filter, p: seq<Slot>, queries: map<MessageId, Query>) {
    && (forall id :: id in RealSet(p) <==> id in queries && !Denied(f, queries[id]))
    && (forall id :: id in SyntheticSet(p) <==> id in queries && Denied(f, queries[id]))
  }

  lemma {:induction false} OneMoreQuery(f: Filter, p: seq<Slot>, queries: map<MessageId, Query>, q: Query)
    requires SameQueries(f, p, queries) && q.id !in RealSet(p) + SyntheticSet(p)
    ensures SameQueries(f, p + [SlotFor(f, q)], queries[q.id := q])
  {
    SlotSetsAppended(p, SlotFor(f, q));
  }

  lemma {:induction false} SlotsAreQueries(f: Filter, hs: seq<Happening>)
    requires DistinctIds(AskedSeq(hs))
    ensures SameQueries(f, Slots(f, AskedSeq(hs)), Queries(hs)) && Queries(hs).Keys == QueryIds(AskedSeq(hs))
  {
    if hs != [] {
      var init := hs[..|hs| - 1];
      match hs[|hs| - 1]
      case Asked(q) =>
        var asked := AskedSeq(init);
        DistinctAppended(asked, q);
        SlotsAreQueries(f, init);
        SlotsDistinct(f, asked);
        SlotsLast(f, asked + [q]);
        OneMoreQuery(f, Slots(f, asked), Queries(init), q);
        assert (asked + [q])[..|asked|] == asked;
      case Answered(_) => SlotsAreQueries(f, init);
    }
  }

  lemma {:induction false} AnsweredAreReplies(hs: seq<Happening>)
    ensures AnsweredIds(hs) == ReplyIds(FromBelow(hs))
  {
    if hs != [] {
      var init := hs[..|hs| - 1];
      AnsweredAreReplies(init);
      if hs[|hs| - 1].Answered? {
        assert FromBelow(hs)[..|FromBelow(init)|] == FromBelow(init);
      }
    }
  }

  /** The last of a sequence of replies: its id is new, and real or synthetic as it is the server's or a dummy. */
  lemma {:induction false} LastHasItsOwn(sent: seq<Slot>, rs: seq<Response>, r: Response)
    requires OneEach(sent, rs + [r]) && r.requestId.Some?
    ensures r.requestId.value !in ReplyIds(rs)
    ensures r.requestId.value in (if r.body.Content? then RealSet(sent) else SyntheticSet(sent))
  {
    assert (rs + [r])[..|rs|] == rs;
    if r.body.Content? {
      ReplyIdsConcat(ServerReplies(rs), [r]);
      assert [r][..0] == [] && ReplyIds([r]) == {} + {r.requestId.value};
    } else {
      OptsAppended(DummiesIn(rs), r.requestId);
    }
  }

  /** The promise the filter relies on, for every next reply. */
  lemma {:induction false} PromiseKept(f: Filter, hs: seq<Happening>, r: Response)
    requires DistinctIds(AskedSeq(hs)) && OneEach(Slots(f, AskedSeq(hs)), FromBelow(hs) + [r])
    ensures Kept(f, Queries(hs), AnsweredIds(hs), r)
  {
    if r.requestId.Some? {
      SlotsAreQueries(f, hs);
      AnsweredAreReplies(hs);
      LastHasItsOwn(Slots(f, AskedSeq(hs)), FromBelow(hs), r);
    }
  }

  lemma {:induction false} LegalAppended(f: Filter, hs: seq<Happening>, h: Happening)
    requires QueryFilter.Legal(f, hs) && Sensible(f, hs, h)
    ensures QueryFilter.Legal(f, hs + [h])
  {
    assert (hs + [h])[..|hs|] == hs;
  }

  lemma {:induction false} AnsweredsLegal(f: Filter, hs: seq<Happening>, rs: seq<Response>)
    requires QueryFilter.Legal(f, hs) && DistinctIds(AskedSeq(hs))
    requires OneEach(Slots(f, AskedSeq(hs)), FromBelow(hs) + rs)
    ensures QueryFilter.Legal(f, hs + Answereds(rs))
  {
    if rs == [] {
      assert hs + Answereds(rs) == hs;
    } else {
      var init, r := rs[..|rs| - 1], rs[|rs| - 1];
      LastOfConcat(FromBelow(hs), rs);
      OneEachPrefix(Slots(f, AskedSeq(hs)), FromBelow(hs) + init, [r]);
      AnsweredsLegal(f, hs, init);
      AnsweredsView(hs, init);
      PromiseKept(f, hs + Answereds(init), r);
      LegalAppended(f, hs + Answereds(init), Answered(r));
      Regrouped(hs, Answereds(init), [Answered(r)]);
    }
  }

  lemma {:induction false} AskLegal(f: Filter, hs: seq<Happening>, q: Query)
    requires QueryFilter.Legal(f, hs) && DistinctIds(AskedSeq(hs)) && q.id !in QueryIds(AskedSeq(hs))
    requires Verdict(f, q) == Passed
    ensures QueryFilter.Legal(f, hs + [Asked(q)])
  {
    SlotsAreQueries(f, hs);
    LegalAppended(f, hs, Asked(q));
  }

  lemma {:induction false} AsksLegal(f: Filter, hs: seq<Happening>, qs: seq<Query>)
    requires QueryFilter.Legal(f, hs) && DistinctIds(AskedSeq(hs) + qs) && AllPass(f, qs)
    ensures QueryFilter.Legal(f, hs + Asks(qs))
  {
    if qs == [] {
      assert hs + Asks(qs) == hs;
    } else {
      var init, q := qs[..|qs| - 1], qs[|qs| - 1];
      LastOfConcat(AskedSeq(hs), qs);
      DistinctAppended(AskedSeq(hs) + init, q);
      AsksLegal(f, hs, init);
      AsksView(hs, init);
      AskLegal(f, hs + Asks(init), q);
      Regrouped(hs, Asks(init), [Asked(q)]);
    }
  }

  // ---- over every run --------------------------------------------------------------------------------------------

  /** The queries are of types the filter can judge, and no id is used twice. */
  predicate GoodQueries(f: Filter, qs: seq<Query>) {
    AllPass(f, qs) && DistinctIds(qs)
  }

  lemma {:induction false} GoodQueriesBefore(f: Filter, turns: seq<Turn>)
    requires GoodQueries(f, AllAsked(turns)) && turns != []
    ensures GoodQueries(f, AllAsked(turns[..|turns| - 1]))
    ensures turns[|turns| - 1].Ask? ==> AllPass(f, turns[|turns| - 1].queries)
  {
    var asked, t := AllAsked(turns[..|turns| - 1]), turns[|turns| - 1];
    if t.Ask? {
      assert forall i :: 0 <= i < |asked| ==> asked[i] == AllAsked(turns)[i];
      assert forall i :: 0 <= i < |t.queries| ==> t.queries[i] == AllAsked(turns)[|asked| + i];
      DistinctQueriesPrefix(asked, t.queries);
    }
  }

  lemma {:induction false} ArriveKeepsPromise(f: Filter, events: seq<Event>, hs: seq<Happening>, asked: seq<Query>,
                                              batch: seq<Response>)
    requires QueryFilter.Legal(f, hs) && Agree(events, hs, f, asked) && DistinctIds(asked)
    requires OneEach(AllSent(events + [Arrived(batch)]), Run(events + [Arrived(batch)]).output)
    ensures QueryFilter.Legal(f, hs + Answereds(Given(Run(events), batch)))
  {
    ArriveAgrees(events, hs, f, asked, batch);
    AnsweredsView(hs, Given(Run(events), batch));
    AnsweredsLegal(f, hs, Given(Run(events), batch));
  }

  lemma {:induction false} TurnKeepsPromise(f: Filter, events: seq<Event>, hs: seq<Happening>, asked: seq<Query>,
                                            t: Turn)
    requires QueryFilter.Legal(f, hs) && Agree(events, hs, f, asked)
    requires t.Ask? ==> AllPass(f, t.queries) && DistinctIds(asked + t.queries)
    requires t.Arrive? ==>
      && DistinctIds(asked)
      && OneEach(AllSent(events + [EventOf(f, t)]), Run(events + [EventOf(f, t)]).output)
    ensures QueryFilter.Legal(f, hs + Seen(Run(events), t))
  {
    match t
    case Ask(qs) => AsksLegal(f, hs, qs);
    case Arrive(batch) => ArriveKeepsPromise(f, events, hs, asked, batch);
  }

  lemma {:induction false} FairBefore(f: Filter, turns: seq<Turn>)
    requires Fair(Events(f, turns)) && turns != []
    ensures Fair(Events(f, turns[..|turns| - 1]))
  {
    var before := Events(f, turns[..|turns| - 1]);
    assert Events(f, turns)[..|before|] == before;
  }

  /**
    * In every run against a server that answers each request once, in any order, with pushes anywhere, the
    * connection keeps the promise the filter relies on.
    */
  lemma {:induction false} SinkKeepsPromise(f: Filter, turns: seq<Turn>)
    requires Fair(Events(f, turns)) && GoodQueries(f, AllAsked(turns))
    ensures QueryFilter.Legal(f, Happenings(f, turns))
  {
    if turns != [] {
      var init, t := turns[..|turns| - 1], turns[|turns| - 1];
      FairBefore(f, turns);
      GoodQueriesBefore(f, turns);
      SinkKeepsPromise(f, init);
      ViewsAgree(f, turns);
      ViewsAgree(f, init);
      SlotsDistinct(f, AllAsked(turns));
      OutputOneEach(Events(f, turns));
      TurnKeepsPromise(f, Events(f, init), Happenings(f, init), AllAsked(init), t);
    }
  }

  // ---- what the client sees ------------------------------------------------------------------------------------

  lemma {:induction false} SameIdsUp(f: Filter, up: seq<Response>, below: seq<Response>, queries: map<MessageId, Query>)
    requires RightReplies(f, up, below, queries)
    ensures ReplyIds(up) == ReplyIds(below) && (Unique(up) <==> Unique(below))
    ensures |SolicitedOf(up)| == |SolicitedOf(below)|
  {
    if below != [] {
      var n := |below| - 1;
      SameIdsUp(f, up[..n], below[..n], queries);
      assert up[n] == Expected(f, queries, below[n]);
    }
  }

  /** The reply `r` to the client is the answer to the query it names: its error, or what a server sent. */
  predicate AnswersQuery(f: Filter, queries: map<MessageId, Query>, r: Response) {
    r.requestId.Some? ==>
    && r.requestId.value in queries && r.body.Content?
    && (Denied(f, queries[r.requestId.value]) ==> r == ErrorReply(r.requestId.value))
  }

  lemma {:induction false} UpOneEach(f: Filter, sent: seq<Slot>, below: seq<Response>, up: seq<Response>,
                                     queries: map<MessageId, Query>)
    requires RightReplies(f, up, below, queries) && OneEach(sent, below) && SameQueries(f, sent, queries)
    ensures Unique(up) && ReplyIds(up) <= queries.Keys
    ensures ReplyIds(below) == RealSet(sent) + SyntheticSet(sent) ==> ReplyIds(up) == queries.Keys
  {
    SameIdsUp(f, up, below, queries);
    IdsByOrigin(below);
  }

  /**
    * End to end, over every run and whatever the order of the server's replies: every reply to the client answers
    * the query it names, no query is answered twice, and once nothing is pending every query has been answered.
    */
  lemma {:induction false} ClientSeesOneReplyEach(f: Filter, turns: seq<Turn>)
    requires Fair(Events(f, turns)) && GoodQueries(f, AllAsked(turns))
    ensures var hs := Happenings(f, turns);
            var up := Play(f, hs).up;
            && (forall i :: 0 <= i < |up| ==> AnswersQuery(f, Queries(hs), up[i]))
            && Unique(up) && ReplyIds(up) <= Queries(hs).Keys
            && (Run(Events(f, turns)).pending == [] ==> ReplyIds(up) == Queries(hs).Keys)
  {
    var hs, events := Happenings(f, turns), Events(f, turns);
    RunOneEach(f, turns);
    SlotsAreQueries(f, hs);
    AnswersUp(f, Play(f, hs).up, FromBelow(hs), Queries(hs));
    UpOneEach(f, AllSent(events), FromBelow(hs), Play(f, hs).up, Queries(hs));
  }

  lemma {:induction false} RunOneEach(f: Filter, turns: seq<Turn>)
    requires Fair(Events(f, turns)) && GoodQueries(f, AllAsked(turns))
    ensures var hs, sent := Happenings(f, turns), AllSent(Events(f, turns));
            && RightReplies(f, Play(f, hs).up, FromBelow(hs), Queries(hs))
            && sent == Slots(f, AskedSeq(hs)) && DistinctIds(AskedSeq(hs)) && OneEach(sent, FromBelow(hs))
            && (Run(Events(f, turns)).pending == [] ==>
                  ReplyIds(FromBelow(hs)) == RealSet(sent) + SyntheticSet(sent))
  {
    SinkKeepsPromise(f, turns);
    OneReplyEach(f, Happenings(f, turns));
    ViewsAgree(f, turns);
    SlotsDistinct(f, AllAsked(turns));
    OutputOneEach(Events(f, turns));
    if Run(Events(f, turns)).pending == [] {
      AllAnswered(Events(f, turns));
    }
  }

  lemma {:induction false} AnswersUp(f: Filter, up: seq<Response>, below: seq<Response>, queries: map<MessageId, Query>)
    requires RightReplies(f, up, below, queries)
    ensures forall i :: 0 <= i < |up| ==> AnswersQuery(f, queries, up[i])
  {
    forall i | 0 <= i < |up| ensures AnswersQuery(f, queries, up[i]) {
      assert up[i] == Expected(f, queries, below[i]);
    }
  }
}
