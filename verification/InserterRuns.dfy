/** Whole runs of the inserter: sends and batches of replies mixed in any order. */
module InserterRuns {
  import opened Messages
  import opened DummyInserter
  import opened DummyPlacement

  datatype Event = Sent(requests: seq<Request>) | Arrived(batch: seq<Response>)

  /** `answered` and `pending` split the requests sent so far; `output` is all that has left. */
  datatype RunState = RunState(answered: seq<Slot>, pending: seq<Slot>, output: seq<Response>)

  /** One call of the inserter; a batch with more answers than there are requests never happens. */
  function Step(s: RunState, e: Event): RunState {
    match e
    case Sent(rs) => s.(pending := s.pending + SlotsOf(rs))
    case Arrived(batch) =>
      if Solicited(batch) > Reals(s.pending) then s else Deliver(s, batch)
  }

  function Deliver(s: RunState, batch: seq<Response>): RunState
    requires Solicited(batch) <= Reals(s.pending)
  {
    var n := Solicited(batch);
    RunState(s.answered + Ready(s.pending, n), Waiting(s.pending, n), s.output + Merged(s.pending, batch))
  }

  function Run(events: seq<Event>): RunState {
    if events == [] then RunState([], [], [])
    else Step(Run(events[..|events| - 1]), events[|events| - 1])
  }

  function SentBy(e: Event): seq<Slot> {
    if e.Sent? then SlotsOf(e.requests) else []
  }

  function ArrivedBy(e: Event): seq<Response> {
    if e.Arrived? then e.batch else []
  }

  /** All requests sent in a run, in order. */
  function AllSent(events: seq<Event>): seq<Slot> {
    if events == [] then [] else AllSent(events[..|events| - 1]) + SentBy(events[|events| - 1])
  }

  /** All replies that arrived in a run, in order. */
  function AllArrived(events: seq<Event>): seq<Response> {
    if events == [] then [] else AllArrived(events[..|events| - 1]) + ArrivedBy(events[|events| - 1])
  }

  lemma {:induction false} RunAppended(events: seq<Event>, e: Event)
    ensures Run(events + [e]) == Step(Run(events), e)
  {
    assert (events + [e])[..|events|] == events;
  }

  lemma {:induction false} EventAppended(events: seq<Event>, e: Event)
    ensures AllSent(events + [e]) == AllSent(events) + SentBy(e)
    ensures AllArrived(events + [e]) == AllArrived(events) + ArrivedBy(e)
  {
    assert (events + [e])[..|events|] == events;
  }

  /** At no point has the server answered more requests than it was sent. */
  predicate Legal(events: seq<Event>) {
    events != [] ==>
    && Legal(events[..|events| - 1])
    && FromServer(ArrivedBy(events[|events| - 1]))
    && Solicited(AllArrived(events)) <= Reals(AllSent(events))
  }

  /** The step miscounts no push. */
  ghost predicate StepUnclashed(s: RunState, e: Event) {
    e.Arrived? && Solicited(e.batch) <= Reals(s.pending) ==> Unclashed(s.pending, e.batch)
  }

  /** No push was miscounted in any call. */
  ghost predicate NeverClashed(events: seq<Event>) {
    events != [] ==>
    && NeverClashed(events[..|events| - 1])
    && StepUnclashed(Run(events[..|events| - 1]), events[|events| - 1])
  }

  lemma {:induction false} AnswersConcat(a: seq<Slot>, rs: seq<Response>, b: seq<Slot>, ss: seq<Response>)
    requires Reals(a) == |rs| && Reals(b) == |ss|
    ensures Reals(a + b) == |rs + ss|
    ensures Answers(a + b, rs + ss) == Answers(a, rs) + Answers(b, ss)
  {
    RealsConcat(a, b);
    if b == [] {
      assert a + b == a && rs + ss == rs;
    } else {
      var b' := b[..|b| - 1];
      assert (a + b)[..|a + b| - 1] == a + b';
      if b[|b| - 1].Synthetic? {
        AnswersConcat(a, rs, b', ss);
      } else {
        AnswersConcat(a, rs, b', ss[..|ss| - 1]);
        assert (rs + ss)[..|rs + ss| - 1] == rs + ss[..|ss| - 1];
      }
    }
  }

  /** What every state of a run satisfies, given all requests sent and all replies that arrived. */
  ghost predicate Consistent(s: RunState, sent: seq<Slot>, arrived: seq<Response>) {
    && sent == s.answered + s.pending
    && Reals(s.answered) == Solicited(arrived)
    && ServerReplies(s.output) == arrived
    && DummiesIn(s.output) == SyntheticIds(s.answered)
  }

  lemma {:induction false} DeliverFits(s: RunState, sent: seq<Slot>, arrived: seq<Response>, batch: seq<Response>)
    requires Consistent(s, sent, arrived) && Solicited(arrived + batch) <= Reals(sent)
    ensures Solicited(batch) <= Reals(s.pending)
  {
    SolicitedOfConcat(arrived, batch);
    RealsConcat(s.answered, s.pending);
  }

  lemma {:induction false} DeliverSplits(s: RunState, sent: seq<Slot>, batch: seq<Response>)
    requires sent == s.answered + s.pending && Solicited(batch) <= Reals(s.pending)
    ensures sent == Deliver(s, batch).answered + Deliver(s, batch).pending
    ensures Reals(Deliver(s, batch).answered) == Reals(s.answered) + Solicited(batch)
    ensures Deliver(s, batch).pending != [] ==> Deliver(s, batch).pending[0].Real?
  {
    var n := Solicited(batch);
    ReadySplits(s.pending, n);
    RealsConcat(s.answered, Ready(s.pending, n));
  }

  lemma {:induction false} DeliverConsistent(s: RunState, sent: seq<Slot>, arrived: seq<Response>, batch: seq<Response>)
    requires Consistent(s, sent, arrived) && FromServer(batch)
    requires Solicited(batch) <= Reals(s.pending)
    ensures Consistent(Deliver(s, batch), sent, arrived + batch)
  {
    DeliverSplits(s, sent, batch);
    SolicitedOfConcat(arrived, batch);
    CallConserves(s.pending, batch);
    FiltersConcat(s.output, Merged(s.pending, batch));
    SyntheticIdsConcat(s.answered, Ready(s.pending, Solicited(batch)));
  }

  lemma {:induction false} StepConsistent(s: RunState, sent: seq<Slot>, arrived: seq<Response>, e: Event)
    requires Consistent(s, sent, arrived) && FromServer(ArrivedBy(e))
    requires Solicited(arrived + ArrivedBy(e)) <= Reals(sent + SentBy(e))
    ensures Consistent(Step(s, e), sent + SentBy(e), arrived + ArrivedBy(e))
    ensures e.Arrived? ==> Step(s, e).pending == [] || Step(s, e).pending[0].Real?
  {
    match e
    case Sent(rs) =>
      assert arrived + ArrivedBy(e) == arrived;
      assert s.answered + (s.pending + SlotsOf(rs)) == sent + SlotsOf(rs);
    case Arrived(batch) =>
      assert sent + SentBy(e) == sent;
      DeliverFits(s, sent, arrived, batch);
      DeliverSplits(s, sent, batch);
      DeliverConsistent(s, sent, arrived, batch);
  }

  /**
   * Every legal run, with pushes anywhere: the unanswered requests are exactly the stored ones, each
   * server reply has left once and in order, each dummy has left once, and none that could leave waits.
   */
  lemma {:induction false} RunConserves(events: seq<Event>)
    requires Legal(events)
    ensures Consistent(Run(events), AllSent(events), AllArrived(events))
    ensures events != [] && events[|events| - 1].Arrived? ==>
              Run(events).pending == [] || Run(events).pending[0].Real?
  {
    if events != [] {
      var init := events[..|events| - 1];
      RunConserves(init);
      StepConsistent(Run(init), AllSent(init), AllArrived(init), events[|events| - 1]);
    }
  }

  lemma {:induction false} SolicitedByOrigin(rs: seq<Response>)
    requires forall i :: 0 <= i < |DummiesIn(rs)| ==> DummiesIn(rs)[i].Some?
    ensures Solicited(rs) == Solicited(ServerReplies(rs)) + |DummiesIn(rs)|
  {
    if rs != [] {
      var init, r := rs[..|rs| - 1], rs[|rs| - 1];
      if r.body.DummyFrame? {
        assert DummiesIn(rs)[|DummiesIn(init)|] == r.requestId;
        forall i | 0 <= i < |DummiesIn(init)| ensures DummiesIn(init)[i].Some? {
          assert DummiesIn(init)[i] == DummiesIn(rs)[i];
        }
      } else {
        assert DummiesIn(rs) == DummiesIn(init);
        assert (ServerReplies(init) + [r])[..|ServerReplies(init)|] == ServerReplies(init);
      }
      SolicitedByOrigin(init);
    }
  }

  lemma {:induction false} SyntheticCounted(p: seq<Slot>)
    ensures |SyntheticIds(p)| + Reals(p) == |p|
    ensures forall i :: 0 <= i < |SyntheticIds(p)| ==> SyntheticIds(p)[i].Some?
  {
    if p != [] {
      SyntheticCounted(p[..|p| - 1]);
    }
  }

  /** In or out of order, exactly one reply has left for each request answered. */
  lemma {:induction false} OneReplyPerAnswer(s: RunState, sent: seq<Slot>, arrived: seq<Response>)
    requires Consistent(s, sent, arrived)
    ensures |SolicitedOf(s.output)| == |s.answered|
  {
    SyntheticCounted(s.answered);
    SolicitedByOrigin(s.output);
  }

  ghost predicate InAnswerOrder(s: RunState, arrived: seq<Response>) {
    && Reals(s.answered) == |SolicitedOf(arrived)|
    && SolicitedOf(s.output) == Answers(s.answered, SolicitedOf(arrived))
  }

  lemma {:induction false} SameParts<T>(a: seq<T>, b: seq<T>, c: seq<T>, d: seq<T>)
    requires |a| == |c|
    ensures a + b == c + d <==> a == c && b == d
  {
    if a + b == c + d {
      assert a == (a + b)[..|a|] && c == (c + d)[..|c|];
      assert b == (a + b)[|a|..] && d == (c + d)[|c|..];
    }
  }

  lemma {:induction false} DeliverInOrderExactly(s: RunState, sent: seq<Slot>, arrived: seq<Response>,
                                                 batch: seq<Response>)
    requires Consistent(s, sent, arrived) && FromServer(batch) && Solicited(batch) <= Reals(s.pending)
    ensures InAnswerOrder(Deliver(s, batch), arrived + batch)
       <==> InAnswerOrder(s, arrived) && Unclashed(s.pending, batch)
  {
    var ready := Ready(s.pending, Solicited(batch));
    OrderExactlyWhenUnclashed(s.pending, batch);
    OneReplyPerAnswer(s, sent, arrived);
    SolicitedOfConcat(s.output, Merged(s.pending, batch));
    SolicitedOfConcat(arrived, batch);
    AnswersConcat(s.answered, SolicitedOf(arrived), ready, SolicitedOf(batch));
    SameParts(SolicitedOf(s.output), SolicitedOf(Merged(s.pending, batch)),
              Answers(s.answered, SolicitedOf(arrived)), Answers(ready, SolicitedOf(batch)));
  }

  lemma {:induction false} StepInOrderExactly(s: RunState, sent: seq<Slot>, arrived: seq<Response>, e: Event)
    requires Consistent(s, sent, arrived) && FromServer(ArrivedBy(e))
    requires Solicited(arrived + ArrivedBy(e)) <= Reals(sent + SentBy(e))
    ensures InAnswerOrder(Step(s, e), arrived + ArrivedBy(e)) <==> InAnswerOrder(s, arrived) && StepUnclashed(s, e)
  {
    match e
    case Sent(rs) =>
      assert arrived + ArrivedBy(e) == arrived;
    case Arrived(batch) =>
      assert sent + SentBy(e) == sent;
      DeliverFits(s, sent, arrived, batch);
      DeliverInOrderExactly(s, sent, arrived, batch);
  }

  /** What has left is the answers to the requests in request order if and only if no push was ever miscounted. */
  lemma {:induction false} RunInOrderExactly(events: seq<Event>)
    requires Legal(events)
    ensures InAnswerOrder(Run(events), AllArrived(events)) <==> NeverClashed(events)
  {
    if events != [] {
      var init := events[..|events| - 1];
      RunConserves(init);
      RunInOrderExactly(init);
      StepInOrderExactly(Run(init), AllSent(init), AllArrived(init), events[|events| - 1]);
    }
  }

  // ---- too many replies --------------------------------------------------------------------

  predicate StepCounts(s: RunState, e: Event) {
    e.Arrived? ==> CountLeft(s.pending, e.batch) >= 0
  }

  /** No call takes the pending count below zero. */
  predicate NeverUnderflows(events: seq<Event>) {
    events != [] ==>
    && NeverUnderflows(events[..|events| - 1])
    && StepCounts(Run(events[..|events| - 1]), events[|events| - 1])
  }

  predicate AllFromServer(events: seq<Event>) {
    events != [] ==> AllFromServer(events[..|events| - 1]) && FromServer(ArrivedBy(events[|events| - 1]))
  }

  lemma {:induction false} FitsExactly(s: RunState, sent: seq<Slot>, arrived: seq<Response>, e: Event)
    requires Consistent(s, sent, arrived) && Solicited(arrived) <= Reals(sent)
    ensures StepCounts(s, e) <==> Solicited(arrived + ArrivedBy(e)) <= Reals(sent + SentBy(e))
  {
    SolicitedOfConcat(arrived, ArrivedBy(e));
    RealsConcat(sent, SentBy(e));
    RealsConcat(s.answered, s.pending);
    if e.Arrived? {
      CountLeftExactly(s.pending, e.batch);
    }
  }

  lemma {:induction false} NeverTooMany(events: seq<Event>)
    requires Legal(events)
    ensures Solicited(AllArrived(events)) <= Reals(AllSent(events))
  {
  }

  /** A server answers more requests than it was sent, at some point, exactly if a call takes the count below zero. */
  lemma {:induction false} UnderflowsExactly(events: seq<Event>)
    requires AllFromServer(events)
    ensures NeverUnderflows(events) <==> Legal(events)
  {
    if events != [] {
      var init := events[..|events| - 1];
      UnderflowsExactly(init);
      if Legal(init) {
        RunConserves(init);
        NeverTooMany(init);
        FitsExactly(Run(init), AllSent(init), AllArrived(init), events[|events| - 1]);
      }
    }
  }

  predicate PushFree(events: seq<Event>) {
    forall i :: 0 <= i < |events| && events[i].Arrived? ==> AllSolicited(events[i].batch)
  }

  lemma {:induction false} PushFreeArrivals(events: seq<Event>)
    requires PushFree(events)
    ensures AllSolicited(AllArrived(events))
  {
    if events != [] {
      PushFreeArrivals(events[..|events| - 1]);
    }
  }

  lemma {:induction false} PushFreeNeverClashes(events: seq<Event>)
    requires PushFree(events)
    ensures NeverClashed(events)
  {
    if events != [] {
      PushFreeNeverClashes(events[..|events| - 1]);
      var s, e := Run(events[..|events| - 1]), events[|events| - 1];
      if e.Arrived? && Solicited(e.batch) <= Reals(s.pending) {
        SolicitedUnclashed(s.pending, e.batch);
      }
    }
  }

  lemma {:induction false} OutputSolicited(events: seq<Event>)
    requires PushFree(events)
    ensures AllSolicited(Run(events).output)
  {
    if events != [] {
      OutputSolicited(events[..|events| - 1]);
      var s, e := Run(events[..|events| - 1]), events[|events| - 1];
      if e.Arrived? && Solicited(e.batch) <= Reals(s.pending) {
        WeaveSolicited(e.batch, Marks(s.pending, e.batch));
      }
    }
  }

  /**
   * Without pushes the whole output after a receive is determined by what was sent and what came
   * back: the answers to the longest prefix of the requests that the replies allow.
   */
  lemma {:induction false} RunIsLongestPrefix(events: seq<Event>)
    requires Legal(events) && PushFree(events) && events != [] && events[|events| - 1].Arrived?
    ensures var s, sent, arrived := Run(events), AllSent(events), AllArrived(events);
            && s.answered == Ready(sent, |arrived|) && s.pending == Waiting(sent, |arrived|)
            && Reals(s.answered) == |arrived|
            && s.output == Answers(Ready(sent, |arrived|), arrived)
  {
    RunConserves(events);
    PushFreeArrivals(events);
    PushFreeNeverClashes(events);
    OutputSolicited(events);
    RunInOrderExactly(events);
    SolicitedOfAll(AllArrived(events));
    SolicitedOfAll(Run(events).output);
    ReadyUnique(Run(events).answered, Run(events).pending);
  }

  /** How the replies were split into batches, and the sends between them, makes no difference. */
  lemma {:induction false} BatchingIrrelevant(a: seq<Event>, b: seq<Event>)
    requires Legal(a) && PushFree(a) && a != [] && a[|a| - 1].Arrived?
    requires Legal(b) && PushFree(b) && b != [] && b[|b| - 1].Arrived?
    requires AllSent(a) == AllSent(b) && AllArrived(a) == AllArrived(b)
    ensures Run(a) == Run(b)
  {
    RunIsLongestPrefix(a);
    RunIsLongestPrefix(b);
  }

  // ---- pairing --------------------------------------------------------------------------

  function RealIds(p: seq<Slot>): (ids: seq<MessageId>)
    ensures |ids| == Reals(p)
  {
    if p == [] then []
    else if p[|p| - 1].Real? then RealIds(p[..|p| - 1]) + [p[|p| - 1].id]
    else RealIds(p[..|p| - 1])
  }

  /** The server answers in the order it was asked. */
  predicate InOrder(sent: seq<Slot>, rs: seq<Response>) {
    |rs| <= Reals(sent) && forall j :: 0 <= j < |rs| ==> rs[j].requestId == Some(RealIds(sent)[j])
  }

  lemma {:induction false} AnswersPair(p: seq<Slot>, rs: seq<Response>, i: nat)
    requires Reals(p) == |rs| && InOrder(p, rs) && i < |p|
    ensures Answers(p, rs)[i].requestId == Some(p[i].id)
  {
    var q := p[..|p| - 1];
    if i < |q| {
      if p[|p| - 1].Synthetic? {
        AnswersPair(q, rs, i);
      } else {
        forall j | 0 <= j < |rs| - 1 ensures rs[..|rs| - 1][j].requestId == Some(RealIds(q)[j]) {
          assert RealIds(p)[j] == RealIds(q)[j];
        }
        AnswersPair(q, rs[..|rs| - 1], i);
      }
    }
  }

  lemma {:induction false} RealIdsConcat(a: seq<Slot>, b: seq<Slot>)
    ensures RealIds(a + b) == RealIds(a) + RealIds(b)
  {
    if b == [] {
      assert a + b == a;
    } else {
      RealIdsConcat(a, b[..|b| - 1]);
      assert (a + b)[..|a + b| - 1] == a + b[..|b| - 1];
    }
  }

  /** Against a server that answers in order, reply number i that leaves carries request number i's id. */
  lemma {:induction false} RepliesPairWithRequests(events: seq<Event>, i: nat)
    requires Legal(events) && NeverClashed(events)
    requires InOrder(AllSent(events), SolicitedOf(AllArrived(events)))
    requires i < |SolicitedOf(Run(events).output)|
    ensures i < |AllSent(events)|
    ensures SolicitedOf(Run(events).output)[i].requestId == Some(AllSent(events)[i].id)
  {
    RunConserves(events);
    RunInOrderExactly(events);
    RealIdsConcat(Run(events).answered, Run(events).pending);
    AnswersPair(Run(events).answered, SolicitedOf(AllArrived(events)), i);
  }
}
