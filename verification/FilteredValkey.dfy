/** The query filter on top of a Valkey connection: denied queries make the decoder mistag, and when that matters. */
module FilteredValkey {
  import opened Messages
  import opened DummyInserter
  import opened InserterRuns
  import opened QueryFilter
  import opened FilteredSink
  import opened FilteredOrder
  import Valkey = ValkeyPubsub
  import opened ValkeyDummies

  // ---- the mistag -------------------------------------------------------------------------------------

  /**
    * Whatever came before, as long as it went well: a denied query reaches the encoder as a dummy, and the first
    * reply to the next query is tagged wrongly.
    */
  lemma {:induction false} DeniedQueryMistags(h: Valkey.Session, denied: MessageId, next: Valkey.RequestInfo)
    requires Valkey.Legal(h) && !next.command.Dummy?
    requires Valkey.DistinctIds(
               h + [Valkey.Asked(Valkey.RequestInfo(denied, Valkey.Dummy))] + [Valkey.Asked(next)])
    ensures !Valkey.RightTags(
              h + [Valkey.Asked(Valkey.RequestInfo(denied, Valkey.Dummy))] + [Valkey.Asked(next)])
  {
    var dummy := Valkey.RequestInfo(denied, Valkey.Dummy);
    assert (h + [Valkey.Asked(dummy)])[..|h|] == h;
    Valkey.RightExactlyWhenSound(h + [Valkey.Asked(dummy)], next);
  }

  const noSubscriptions := Valkey.Subscriptions({}, {}, {})

  lemma {:induction false} OnlyDummy(dummy: Valkey.RequestInfo)
    requires dummy.command.Dummy?
    ensures var h := [Valkey.Asked(dummy)];
            && Valkey.Play(h) == Valkey.newReader.(queue := [dummy])
            && Valkey.SubscriptionsAfter(h) == noSubscriptions
            && Valkey.Headers(h) == [dummy] && ServerIds([dummy]) == []
  {
    var h := [Valkey.Asked(dummy)];
    assert h[..0] == [] && [] + [dummy] == [dummy];
    assert [dummy][..0] == [];
  }

  lemma {:induction false} BehindDummy(dummy: Valkey.RequestInfo, q: Valkey.RequestInfo)
    requires dummy.command.Dummy? && !q.command.Dummy?
    ensures var h := [Valkey.Asked(dummy)] + [Valkey.Asked(q)];
            && Valkey.Play(h) == Valkey.Feed(Valkey.newReader.(queue := [dummy]), noSubscriptions, Valkey.Asked(q))
            && ServerIds(Valkey.Headers(h)) == [q.id]
  {
    var h := [Valkey.Asked(dummy)];
    OnlyDummy(dummy);
    PlayNext(h, Valkey.Asked(q));
    ServedNext([dummy], q);
    assert [] + [q.id] == [q.id];
  }

  /** On a new connection the reply to the next query is tagged with the denied query's id. */
  lemma {:induction false} TaggedWithDenied(denied: MessageId, next: MessageId)
    ensures var dummy := Valkey.RequestInfo(denied, Valkey.Dummy);
            var q := Valkey.RequestInfo(next, Valkey.Other(false));
            Valkey.Play([Valkey.Asked(dummy)] + [Valkey.Asked(q)]).tags == [Some(denied)]
  {
    var dummy := Valkey.RequestInfo(denied, Valkey.Dummy);
    var q := Valkey.RequestInfo(next, Valkey.Other(false));
    BehindDummy(dummy, q);
    OrdinaryBehindDummy(dummy, q);
  }

  lemma {:induction false} OrdinaryBehindDummy(dummy: Valkey.RequestInfo, q: Valkey.RequestInfo)
    requires dummy.command.Dummy? && q.command.Other?
    ensures Valkey.Feed(Valkey.newReader.(queue := [dummy]), noSubscriptions, Valkey.Asked(q)).tags == [Some(dummy.id)]
  {
    Valkey.FeedSplits(Valkey.newReader.(queue := [dummy]), noSubscriptions, q);
    NextTagged(Valkey.newReader.(queue := [dummy] + [q]), Valkey.FirstReply(noSubscriptions, q));
  }

  // ---- a session as the connection sees it ------------------------------------------------------------------

  /** A reply on the wire is named after the request it is the first reply to. */
  function BodyOf(owner: Option<MessageId>): Body {
    Content(if owner.Some? then owner.value else -2)
  }

  function Replies(tags: seq<Option<MessageId>>, owners: seq<Option<MessageId>>): (rs: seq<Response>)
    requires |tags| == |owners|
    ensures |rs| == |tags|
  {
    seq(|tags|, i requires 0 <= i < |tags| => Response(tags[i], BodyOf(owners[i])))
  }

  /** All the decoder makes of a session. */
  function Decoded(h: Valkey.Session): seq<Response> {
    Valkey.TagsCounted(h);
    Replies(Valkey.Play(h).tags, Valkey.Owners(h))
  }

  function SlotOfHeader(header: Valkey.RequestInfo): Slot {
    if header.command.Dummy? then Synthetic(header.id) else Real(header.id)
  }

  /** The first requests sent are those of the headers. */
  predicate SameRequests(headers: seq<Valkey.RequestInfo>, sent: seq<Slot>) {
    |headers| <= |sent| && forall i :: 0 <= i < |headers| ==> sent[i] == SlotOfHeader(headers[i])
  }

  /** What has arrived was decoded from a session whose requests have all been sent. */
  predicate CarriedBy(events: seq<Event>, h: Valkey.Session) {
    AllArrived(events) <= Decoded(h) && SameRequests(Valkey.Headers(h), AllSent(events))
  }

  /** A run of the connection over a session: no reply arrives before its request is sent. */
  ghost predicate Carried(events: seq<Event>, h: Valkey.Session) {
    events != [] ==>
    && Carried(events[..|events| - 1], h)
    && exists n :: 0 <= n <= |h| && CarriedBy(events, h[..n])
  }

  // ---- counting -----------------------------------------------------------------------------------------------

  lemma {:induction false} RepliesAppended(tags: seq<Option<MessageId>>, owners: seq<Option<MessageId>>)
    requires |tags| == |owners| && tags != []
    ensures var n := |tags| - 1;
            Replies(tags, owners) == Replies(tags[..n], owners[..n]) + [Response(tags[n], BodyOf(owners[n]))]
  {
  }

  lemma {:induction false} SolicitedReplies(tags: seq<Option<MessageId>>, owners: seq<Option<MessageId>>)
    requires |tags| == |owners|
    ensures Solicited(Replies(tags, owners)) == |IdsGiven(tags)|
    ensures forall j :: 0 <= j < |IdsGiven(tags)| ==>
      SolicitedOf(Replies(tags, owners))[j].requestId == Some(IdsGiven(tags)[j])
  {
    if tags != [] {
      var n := |tags| - 1;
      SolicitedReplies(tags[..n], owners[..n]);
      RepliesAppended(tags, owners);
      AppendedReply(Replies(tags[..n], owners[..n]), Response(tags[n], BodyOf(owners[n])));
    }
  }

  /** When the right frames are tagged, the replies that count are the first replies, in order. */
  lemma {:induction false} SolicitedBodies(tags: seq<Option<MessageId>>, owners: seq<Option<MessageId>>)
    requires SameFrames(tags, owners)
    ensures |SolicitedOf(Replies(tags, owners))| == |IdsGiven(owners)|
    ensures forall j :: 0 <= j < |IdsGiven(owners)| ==>
      SolicitedOf(Replies(tags, owners))[j].body == Content(IdsGiven(owners)[j])
  {
    if tags != [] {
      var n := |tags| - 1;
      SolicitedBodies(tags[..n], owners[..n]);
      RepliesAppended(tags, owners);
      AppendedReply(Replies(tags[..n], owners[..n]), Response(tags[n], BodyOf(owners[n])));
    }
  }

  lemma {:induction false} RealsOfHeaders(headers: seq<Valkey.RequestInfo>, sent: seq<Slot>)
    requires SameRequests(headers, sent)
    ensures ServerIds(headers) <= RealIds(sent)
    ensures |headers| == |sent| ==> ServerIds(headers) == RealIds(sent)
  {
    if |headers| < |sent| {
      RealsOfHeaders(headers, sent[..|sent| - 1]);
    } else if headers != [] {
      RealsOfHeaders(headers[..|headers| - 1], sent[..|sent| - 1]);
    }
  }

  lemma {:induction false} SolicitedPrefix(a: seq<Response>, b: seq<Response>)
    requires a <= b
    ensures SolicitedOf(a) <= SolicitedOf(b)
  {
    SolicitedOfConcat(a, b[|a|..]);
    assert a + b[|a|..] == b;
  }

  ghost predicate NeverTooMany(h: Valkey.Session) {
    forall n :: 0 <= n <= |h| ==> !TooMany(h[..n])
  }

  lemma {:induction false} CarriedFits(events: seq<Event>, h: Valkey.Session)
    requires CarriedBy(events, h) && !TooMany(h)
    ensures Solicited(AllArrived(events)) <= Reals(AllSent(events))
  {
    Valkey.TagsCounted(h);
    SolicitedPrefix(AllArrived(events), Decoded(h));
    SolicitedReplies(Valkey.Play(h).tags, Valkey.Owners(h));
    RealsOfHeaders(Valkey.Headers(h), AllSent(events));
  }

  lemma {:induction false} LaterFromServer(a: seq<Response>, b: seq<Response>, all: seq<Response>)
    requires a + b <= all && FromServer(all)
    ensures FromServer(b)
  {
    forall i | 0 <= i < |b| ensures b[i].body.Content? {
      assert all[|a| + i] == (a + b)[|a| + i] == b[i];
    }
  }

  lemma {:induction false} CarriedFromServer(events: seq<Event>, h: Valkey.Session)
    requires Carried(events, h)
    ensures AllFromServer(events)
  {
    if events != [] {
      var init := events[..|events| - 1];
      CarriedFromServer(init, h);
      var n :| 0 <= n <= |h| && CarriedBy(events, h[..n]);
      LaterFromServer(AllArrived(init), ArrivedBy(events[|events| - 1]), Decoded(h[..n]));
    }
  }

  lemma {:induction false} CarriedLegal(events: seq<Event>, h: Valkey.Session)
    requires Carried(events, h) && NeverTooMany(h)
    ensures InserterRuns.Legal(events)
  {
    if events != [] {
      CarriedLegal(events[..|events| - 1], h);
      CarriedFromServer(events, h);
      var n :| 0 <= n <= |h| && CarriedBy(events, h[..n]);
      CarriedFits(events, h[..n]);
    }
  }

  /** Reply j carries the id of header j, so it never names a request behind its own. */
  lemma {:induction false} CarriedNames(events: seq<Event>, h: Valkey.Session)
    requires CarriedBy(events, h)
    ensures NamesNoneBehind(AllSent(events), SolicitedOf(AllArrived(events)))
  {
    var sent, rs := AllSent(events), SolicitedOf(AllArrived(events));
    var tags, ids := Valkey.Play(h).tags, IdsOf(Valkey.Headers(h));
    Valkey.TagsCounted(h);
    SolicitedPrefix(AllArrived(events), Decoded(h));
    SolicitedReplies(tags, Valkey.Owners(h));
    TagsInHeaderOrder(h);
    assert IdsGiven(tags) <= ids;
    forall i | 0 <= i < |sent| && sent[i].Real? && Reals(sent[..i]) < |rs|
      ensures exists k :: 0 <= k <= i && rs[Reals(sent[..i])].requestId == Some(sent[k].id)
    {
      var j := Reals(sent[..i]);
      RealsOfPrefix(sent, i);
      assert rs[j] == SolicitedOf(Decoded(h))[j] && rs[j].requestId == Some(IdsGiven(tags)[j]);
      assert IdsGiven(tags)[j] == ids[j] == sent[j].id;
    }
  }

  // ---- what the client sees -------------------------------------------------------------------------------------

  lemma {:induction false} CalmPrefix(h: Valkey.Session, n: nat)
    requires Valkey.Legal(h) && Calm(h) && n <= |h|
    ensures Valkey.Legal(h[..n]) && Calm(h[..n])
  {
    if n < |h| {
      CalmPrefix(h[..|h| - 1], n);
      assert h[..|h| - 1][..n] == h[..n];
    } else {
      assert h[..n] == h;
    }
  }

  lemma {:induction false} CalmFits(h: Valkey.Session)
    requires Valkey.Legal(h) && Calm(h)
    ensures NeverTooMany(h)
  {
    forall n | 0 <= n <= |h| ensures !TooMany(h[..n]) {
      CalmPrefix(h, n);
      CalmNeverTooMany(h[..n]);
    }
  }

  /** The server's replies are to the requests it was sent, in order. */
  predicate OwnBodies(p: seq<Slot>, rs: seq<Response>) {
    |rs| <= Reals(p) && forall j :: 0 <= j < |rs| ==> rs[j].body == Content(RealIds(p)[j])
  }

  lemma {:induction false} CarriedBodies(events: seq<Event>, h: Valkey.Session)
    requires CarriedBy(events, h) && Valkey.Legal(h) && Calm(h)
    ensures OwnBodies(AllSent(events), SolicitedOf(AllArrived(events)))
  {
    var rs, tags, owners := SolicitedOf(AllArrived(events)), Valkey.Play(h).tags, Valkey.Owners(h);
    CalmLags(h);
    SolicitedPrefix(AllArrived(events), Decoded(h));
    SolicitedBodies(tags, owners);
    OwnersAreServed(h);
    RealsOfHeaders(Valkey.Headers(h), AllSent(events));
    forall j | 0 <= j < |rs| ensures rs[j].body == Content(RealIds(AllSent(events))[j]) {
      assert rs[j] == SolicitedOf(Replies(tags, owners))[j];
      assert IdsGiven(owners)[j] == RealIds(AllSent(events))[j];
    }
  }

  /** What the client should see as reply number `i`: the error of a denied query, the server's reply to any other. */
  predicate RightReply(f: Filter, q: Query, r: Response) {
    if Denied(f, q) then r == ErrorReply(q.id) else r.body == Content(q.id)
  }

  lemma {:induction false} ShownBodies(f: Filter, up: seq<Response>, asked: seq<Query>, n: nat, server: seq<Response>)
    requires Shown(f, up, asked, n, server) && OwnBodies(Slots(f, asked), server)
    ensures forall i :: 0 <= i < n ==> RightReply(f, asked[i], up[i])
  {
    forall i | 0 <= i < n ensures RightReply(f, asked[i], up[i]) {
      ShownAt(f, up, asked, n, server, i);
    }
  }

  lemma {:induction false} CarriedOrderly(f: Filter, turns: seq<Turn>, h: Valkey.Session)
    requires Valkey.Legal(h) && Calm(h) && Carried(Events(f, turns), h) && NeverClashed(Events(f, turns))
    ensures Orderly(Events(f, turns))
    ensures OwnBodies(AllSent(Events(f, turns)), SolicitedOf(AllArrived(Events(f, turns))))
  {
    var events := Events(f, turns);
    CalmFits(h);
    CarriedLegal(events, h);
    if events != [] {
      var n :| 0 <= n <= |h| && CarriedBy(events, h[..n]);
      CalmPrefix(h, n);
      CarriedNames(events, h[..n]);
      CarriedBodies(events, h[..n]);
    }
  }

  /**
    * Filter, connection and Valkey decoder together, over every run of a calm session with no push miscounted: the
    * tags are wrong from the first denied query on, and yet reply number i to the client is the right one for query
    * number i. A Valkey client goes by the position of a reply, not by an id.
    */
  lemma {:induction false} DeniedQueriesDoNoHarm(f: Filter, turns: seq<Turn>, h: Valkey.Session)
    requires Valkey.Legal(h) && Calm(h) && Carried(Events(f, turns), h) && NeverClashed(Events(f, turns))
    requires DistinctIds(AllAsked(turns))
    ensures var up, asked := SolicitedOf(Play(f, Happenings(f, turns)).up), AllAsked(turns);
            && |up| == |Run(Events(f, turns)).answered| <= |asked|
            && forall i :: 0 <= i < |up| ==> RightReply(f, asked[i], up[i])
  {
    var events := Events(f, turns);
    CarriedOrderly(f, turns, h);
    ShownInRun(f, turns);
    ViewsAgree(f, turns);
    ShownBodies(f, SolicitedOf(Play(f, Happenings(f, turns)).up), AllAsked(turns), |Run(events).answered|,
                SolicitedOf(AllArrived(events)));
  }

  // ---- when it does harm ----------------------------------------------------------------------------------------

  /** All requests of the session are sent and all its replies have come. */
  ghost predicate Complete(events: seq<Event>, h: Valkey.Session) {
    && Carried(events, h) && AllArrived(events) == Decoded(h)
    && SameRequests(Valkey.Headers(h), AllSent(events)) && |AllSent(events)| == |Valkey.Headers(h)|
  }

  lemma {:induction false} Overfull(events: seq<Event>, h: Valkey.Session)
    requires TooMany(h) && Complete(events, h)
    ensures !InserterRuns.Legal(events)
  {
    Valkey.TagsCounted(h);
    SolicitedReplies(Valkey.Play(h).tags, Valkey.Owners(h));
    RealsOfHeaders(Valkey.Headers(h), AllSent(events));
    if InserterRuns.Legal(events) {
      InserterRuns.NeverTooMany(events);
    }
  }

  /** The inserter's pending count is taken below zero as soon as the tags outnumber the requests, and not before. */
  lemma {:induction false} UnderflowsWhenTooMany(events: seq<Event>, h: Valkey.Session, e: Valkey.Happening)
    requires NeverTooMany(h) && Complete(events, h + [e])
    ensures NeverUnderflows(events) <==> !TooMany(h + [e])
  {
    CarriedFromServer(events, h + [e]);
    UnderflowsExactly(events);
    if TooMany(h + [e]) {
      Overfull(events, h + [e]);
    } else {
      FitsToTheEnd(h, e);
      CarriedLegal(events, h + [e]);
    }
  }

  lemma {:induction false} FitsToTheEnd(h: Valkey.Session, e: Valkey.Happening)
    requires NeverTooMany(h) && !TooMany(h + [e])
    ensures NeverTooMany(h + [e])
  {
    forall n | 0 <= n <= |h| + 1 ensures !TooMany((h + [e])[..n]) {
      if n <= |h| {
        assert (h + [e])[..n] == h[..n];
      } else {
        assert (h + [e])[..n] == h + [e];
      }
    }
  }

  /**
    * A request behind a calm session: the pending count goes below zero in some call exactly if a query was denied
    * before it and it has more than one reply.
    */
  lemma {:induction false} RequestUnderflowsExactly(events: seq<Event>, h: Valkey.Session, q: Valkey.RequestInfo)
    requires Valkey.Legal(h) && Calm(h) && !q.command.Dummy? && Complete(events, h + [Valkey.Asked(q)])
    ensures NeverUnderflows(events)
       <==> !(Dummies(h) > 0 && Valkey.ReplyCount(Valkey.SubscriptionsAfter(h), q.command) > 1)
  {
    CalmFits(h);
    TooManyExactly(h, q);
    UnderflowsWhenTooMany(events, h, Valkey.Asked(q));
  }

  /** And a push behind a request with one reply: exactly if a query was denied and nothing was subscribed to. */
  lemma {:induction false} PushUnderflowsExactly(events: seq<Event>, h: Valkey.Session, q: Valkey.RequestInfo)
    requires Valkey.Legal(h) && Calm(h) && !q.command.Dummy?
    requires Valkey.ReplyCount(Valkey.SubscriptionsAfter(h), q.command) == 1
    requires Valkey.SubscriptionsAfter(h + [Valkey.Asked(q)]).Any()
    requires Complete(events, h + [Valkey.Asked(q)] + [Valkey.Pushed])
    ensures NeverUnderflows(events) <==> !(Dummies(h) > 0 && !Valkey.SubscriptionsAfter(h).Any())
  {
    CalmFits(h);
    TooManyExactly(h, q);
    FitsToTheEnd(h, Valkey.Asked(q));
    PushTooManyExactly(h, q);
    UnderflowsWhenTooMany(events, h + [Valkey.Asked(q)], Valkey.Pushed);
  }

  /** Such an input: a denied query, and then a subscription to two names, both of whose replies are tagged. */
  lemma {:induction false} DeniedThenSubscribe(denied: MessageId, sub: MessageId, a: Valkey.Name, b: Valkey.Name)
    ensures var dummy := Valkey.RequestInfo(denied, Valkey.Dummy);
            var q := Valkey.RequestInfo(sub, Valkey.Subscribe(Valkey.Channel, [a, b]));
            var h := [Valkey.Asked(dummy)] + [Valkey.Asked(q)];
            && Valkey.Play(h).tags == [Some(denied), Some(sub)]
            && ServerIds(Valkey.Headers(h)) == [sub]
  {
    var dummy := Valkey.RequestInfo(denied, Valkey.Dummy);
    var q := Valkey.RequestInfo(sub, Valkey.Subscribe(Valkey.Channel, [a, b]));
    BehindDummy(dummy, q);
    Valkey.FeedSplits(Valkey.newReader.(queue := [dummy]), noSubscriptions, q);
    ReadBoth(dummy, q, Valkey.FirstReply(noSubscriptions, q));
  }

  lemma {:induction false} ReadBoth(dummy: Valkey.RequestInfo, q: Valkey.RequestInfo, first: Valkey.Frame)
    requires dummy.command.Dummy?
    ensures var r := Valkey.newReader.(queue := [dummy] + [q]);
            Valkey.ReadAll(Valkey.ReadFrame(r, first), Valkey.Extras(1)).tags == [Some(dummy.id), Some(q.id)]
  {
    var r := Valkey.newReader.(queue := [dummy] + [q]);
    var r1, extra := Valkey.ReadFrame(r, first), Valkey.Frame(false, None);
    assert r.queue[1..] == [q];
    assert r1.tags == [Some(dummy.id)] && r1.queue == [q] && r1.extra == 0;
    assert Valkey.Extras(1) == [extra];
    Valkey.ReadOne(r1, extra);
    assert [Some(dummy.id)] + [Some(q.id)] == [Some(dummy.id), Some(q.id)];
  }
}
