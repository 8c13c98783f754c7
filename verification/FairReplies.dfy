/** A sink connection to a server that answers in any order: every reply that leaves has its own request. */
module FairReplies {
  import opened Messages
  import opened DummyInserter
  import opened DummyPlacement
  import opened InserterRuns

  // ---- ids ------------------------------------------------------------------------------------------

  function IdOf(o: Option<MessageId>): set<MessageId> {
    if o.Some? then {o.value} else {}
  }

  /** The requests a sequence of replies answers. */
  function ReplyIds(rs: seq<Response>): set<MessageId> {
    if rs == [] then {} else ReplyIds(rs[..|rs| - 1]) + IdOf(rs[|rs| - 1].requestId)
  }

  /** No request is answered twice. */
  predicate Unique(rs: seq<Response>) {
    rs != [] ==> Unique(rs[..|rs| - 1]) && IdOf(rs[|rs| - 1].requestId) !! ReplyIds(rs[..|rs| - 1])
  }

  function OptIds(os: seq<Option<MessageId>>): set<MessageId> {
    if os == [] then {} else OptIds(os[..|os| - 1]) + IdOf(os[|os| - 1])
  }

  predicate UniqueOpts(os: seq<Option<MessageId>>) {
    os != [] ==> UniqueOpts(os[..|os| - 1]) && IdOf(os[|os| - 1]) !! OptIds(os[..|os| - 1])
  }

  function RealSet(p: seq<Slot>): set<MessageId> {
    if p == [] then {}
    else if p[|p| - 1].Real? then RealSet(p[..|p| - 1]) + {p[|p| - 1].id} else RealSet(p[..|p| - 1])
  }

  function SyntheticSet(p: seq<Slot>): set<MessageId> {
    if p == [] then {}
    else if p[|p| - 1].Synthetic? then SyntheticSet(p[..|p| - 1]) + {p[|p| - 1].id} else SyntheticSet(p[..|p| - 1])
  }

  predicate DistinctSlots(p: seq<Slot>) {
    p != [] ==>
    DistinctSlots(p[..|p| - 1]) && p[|p| - 1].id !in RealSet(p[..|p| - 1]) + SyntheticSet(p[..|p| - 1])
  }

  lemma {:induction false} ReplyIdsConcat(a: seq<Response>, b: seq<Response>)
    ensures ReplyIds(a + b) == ReplyIds(a) + ReplyIds(b)
  {
    if b == [] {
      assert a + b == a;
    } else {
      ReplyIdsConcat(a, b[..|b| - 1]);
      assert (a + b)[..|a + b| - 1] == a + b[..|b| - 1];
    }
  }

  lemma {:induction false} UniquePrefix(a: seq<Response>, b: seq<Response>)
    requires Unique(a + b)
    ensures Unique(a)
  {
    if b == [] {
      assert a + b == a;
    } else {
      assert (a + b)[..|a + b| - 1] == a + b[..|b| - 1];
      UniquePrefix(a, b[..|b| - 1]);
    }
  }

  lemma {:induction false} SlotSetsConcat(a: seq<Slot>, b: seq<Slot>)
    ensures RealSet(a + b) == RealSet(a) + RealSet(b) && SyntheticSet(a + b) == SyntheticSet(a) + SyntheticSet(b)
  {
    if b == [] {
      assert a + b == a;
    } else {
      SlotSetsConcat(a, b[..|b| - 1]);
      assert (a + b)[..|a + b| - 1] == a + b[..|b| - 1];
    }
  }

  lemma {:induction false} DistinctPrefix(a: seq<Slot>, b: seq<Slot>)
    requires DistinctSlots(a + b)
    ensures DistinctSlots(a)
  {
    if b == [] {
      assert a + b == a;
    } else {
      assert (a + b)[..|a + b| - 1] == a + b[..|b| - 1];
      DistinctPrefix(a, b[..|b| - 1]);
    }
  }

  // ---- counting ---------------------------------------------------------------------------------------

  lemma {:induction false} UniqueCounted(rs: seq<Response>)
    requires Unique(rs)
    ensures |ReplyIds(rs)| == Solicited(rs)
  {
    if rs != [] {
      UniqueCounted(rs[..|rs| - 1]);
    }
  }

  lemma {:induction false} DistinctCounted(p: seq<Slot>)
    requires DistinctSlots(p)
    ensures |RealSet(p)| == Reals(p) && RealSet(p) !! SyntheticSet(p)
  {
    if p != [] {
      DistinctCounted(p[..|p| - 1]);
    }
  }

  lemma {:induction false} SubsetCounted(a: set<MessageId>, b: set<MessageId>)
    requires a <= b
    ensures |a| <= |b| && (|a| == |b| ==> a == b)
  {
    var rest := b - a;
    assert b == a + rest;
    if |a| == |b| {
      assert |rest| == 0;
    }
  }

  // ---- replies by origin ---------------------------------------------------------------------------------

  lemma {:induction false} IdsByOrigin(rs: seq<Response>)
    ensures ReplyIds(rs) == ReplyIds(ServerReplies(rs)) + OptIds(DummiesIn(rs))
  {
    if rs != [] {
      var init, r := rs[..|rs| - 1], rs[|rs| - 1];
      IdsByOrigin(init);
      if r.body.Content? {
        assert ServerReplies(rs)[..|ServerReplies(init)|] == ServerReplies(init);
      } else {
        assert DummiesIn(rs)[..|DummiesIn(init)|] == DummiesIn(init);
      }
    }
  }

  /** Replies repeat no id when neither the server's nor the dummies do and the two share none. */
  lemma {:induction false} UniqueByOrigin(rs: seq<Response>)
    requires Unique(ServerReplies(rs)) && UniqueOpts(DummiesIn(rs))
    requires ReplyIds(ServerReplies(rs)) !! OptIds(DummiesIn(rs))
    ensures Unique(rs)
  {
    if rs != [] {
      var init, r := rs[..|rs| - 1], rs[|rs| - 1];
      IdsByOrigin(init);
      if r.body.Content? {
        assert ServerReplies(rs)[..|ServerReplies(init)|] == ServerReplies(init);
      } else {
        assert DummiesIn(rs)[..|DummiesIn(init)|] == DummiesIn(init);
      }
      UniqueByOrigin(init);
    }
  }

  lemma {:induction false} OptsAppended(os: seq<Option<MessageId>>, o: Option<MessageId>)
    ensures OptIds(os + [o]) == OptIds(os) + IdOf(o)
    ensures UniqueOpts(os + [o]) <==> UniqueOpts(os) && IdOf(o) !! OptIds(os)
  {
    assert (os + [o])[..|os|] == os;
  }

  lemma {:induction false} SyntheticOpts(p: seq<Slot>)
    requires DistinctSlots(p)
    ensures OptIds(SyntheticIds(p)) == SyntheticSet(p) && UniqueOpts(SyntheticIds(p))
  {
    if p != [] {
      var init := p[..|p| - 1];
      SyntheticOpts(init);
      OptsAppended(SyntheticIds(init), Some(p[|p| - 1].id));
    }
  }

  // ---- a fair server ----------------------------------------------------------------------------------------

  /** A batch answers requests that were sent, with replies of the server's own. */
  predicate FairBatch(sent: seq<Slot>, batch: seq<Response>) {
    FromServer(batch) && ReplyIds(batch) <= RealSet(sent)
  }

  /** In any order, with pushes anywhere: each reply is to a request sent before it, and none is answered twice. */
  predicate Fair(events: seq<Event>) {
    events != [] ==>
    && Fair(events[..|events| - 1])
    && FairBatch(AllSent(events[..|events| - 1]), ArrivedBy(events[|events| - 1]))
    && Unique(AllArrived(events))
  }

  lemma {:induction false} FairAnswersSent(events: seq<Event>)
    requires Fair(events)
    ensures ReplyIds(AllArrived(events)) <= RealSet(AllSent(events)) && Unique(AllArrived(events))
  {
    if events != [] {
      var init, e := events[..|events| - 1], events[|events| - 1];
      FairAnswersSent(init);
      ReplyIdsConcat(AllArrived(init), ArrivedBy(e));
      SlotSetsConcat(AllSent(init), SentBy(e));
    }
  }

  /** A fair server never answers more requests than it was sent. */
  lemma {:induction false} FairIsLegal(events: seq<Event>)
    requires Fair(events) && DistinctSlots(AllSent(events))
    ensures Legal(events)
  {
    if events != [] {
      var init, e := events[..|events| - 1], events[|events| - 1];
      DistinctPrefix(AllSent(init), SentBy(e));
      FairIsLegal(init);
      FairAnswersSent(events);
      UniqueCounted(AllArrived(events));
      DistinctCounted(AllSent(events));
      SubsetCounted(ReplyIds(AllArrived(events)), RealSet(AllSent(events)));
    }
  }

  /** Every reply has its own request: a dummy a synthetic one, a server's a real one, and none twice. */
  ghost predicate OneEach(sent: seq<Slot>, rs: seq<Response>) {
    && ReplyIds(ServerReplies(rs)) <= RealSet(sent) && OptIds(DummiesIn(rs)) <= SyntheticSet(sent)
    && Unique(rs)
  }

  /** Over every run against a fair server, whatever clashes: each reply that leaves has its own request. */
  lemma {:induction false} OutputOneEach(events: seq<Event>)
    requires Fair(events) && DistinctSlots(AllSent(events))
    ensures OneEach(AllSent(events), Run(events).output)
    ensures ReplyIds(Run(events).output) == ReplyIds(AllArrived(events)) + SyntheticSet(Run(events).answered)
  {
    var s := Run(events);
    FairIsLegal(events);
    RunConserves(events);
    FairAnswersSent(events);
    DistinctPrefix(s.answered, s.pending);
    SyntheticOpts(s.answered);
    SlotSetsConcat(s.answered, s.pending);
    DistinctCounted(AllSent(events));
    UniqueByOrigin(s.output);
    IdsByOrigin(s.output);
  }

  /** Once nothing is pending, every request has been answered. */
  lemma {:induction false} AllAnswered(events: seq<Event>)
    requires Fair(events) && DistinctSlots(AllSent(events)) && Run(events).pending == []
    ensures ReplyIds(Run(events).output) == RealSet(AllSent(events)) + SyntheticSet(AllSent(events))
  {
    OutputOneEach(events);
    FairIsLegal(events);
    RunConserves(events);
    FairAnswersSent(events);
    assert Run(events).answered + [] == Run(events).answered;
    UniqueCounted(AllArrived(events));
    DistinctCounted(AllSent(events));
    SubsetCounted(ReplyIds(AllArrived(events)), RealSet(AllSent(events)));
  }

  lemma {:induction false} OneEachPrefix(sent: seq<Slot>, a: seq<Response>, b: seq<Response>)
    requires OneEach(sent, a + b)
    ensures OneEach(sent, a)
  {
    UniquePrefix(a, b);
    FiltersConcat(a, b);
    ReplyIdsConcat(ServerReplies(a), ServerReplies(b));
    OptIdsConcat(DummiesIn(a), DummiesIn(b));
  }

  lemma {:induction false} OptIdsConcat(a: seq<Option<MessageId>>, b: seq<Option<MessageId>>)
    ensures OptIds(a + b) == OptIds(a) + OptIds(b)
  {
    if b == [] {
      assert a + b == a;
    } else {
      OptIdsConcat(a, b[..|b| - 1]);
      assert (a + b)[..|a + b| - 1] == a + b[..|b| - 1];
    }
  }
}
