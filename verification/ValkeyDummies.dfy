/** Valkey sessions with dummies in them: the header of a dummy stays in the queue, and tags lag behind by one more. */
module ValkeyDummies {
  import opened Messages
  import opened ValkeyPubsub

  /** The ids that were given out as tags, in order. */
  function IdsGiven(tags: seq<Option<MessageId>>): seq<MessageId> {
    if tags == [] then []
    else if tags[|tags| - 1].Some? then IdsGiven(tags[..|tags| - 1]) + [tags[|tags| - 1].value]
    else IdsGiven(tags[..|tags| - 1])
  }

  function IdsOf(headers: seq<RequestInfo>): (ids: seq<MessageId>)
    ensures |ids| == |headers|
  {
    seq(|headers|, i requires 0 <= i < |headers| => headers[i].id)
  }

  /** The ids of the requests the server sees. */
  function ServerIds(headers: seq<RequestInfo>): seq<MessageId> {
    if headers == [] then []
    else if headers[|headers| - 1].command.Dummy? then ServerIds(headers[..|headers| - 1])
    else ServerIds(headers[..|headers| - 1]) + [headers[|headers| - 1].id]
  }

  function Dummies(h: Session): nat {
    if h == [] then 0
    else Dummies(h[..|h| - 1]) + if h[|h| - 1].Asked? && h[|h| - 1].request.command.Dummy? then 1 else 0
  }

  lemma {:induction false} GivenAppended(tags: seq<Option<MessageId>>, tag: Option<MessageId>)
    ensures IdsGiven(tags + [tag]) == if tag.Some? then IdsGiven(tags) + [tag.value] else IdsGiven(tags)
  {
    assert (tags + [tag])[..|tags|] == tags;
  }

  lemma {:induction false} PlayNext(h: Session, e: Happening)
    ensures Play(h + [e]) == Feed(Play(h), SubscriptionsAfter(h), e)
    ensures Headers(h + [e]) == if e.Asked? then Headers(h) + [e.request] else Headers(h)
  {
    assert (h + [e])[..|h|] == h;
  }

  // ---- tags follow the header queue, in step or not ---------------------------------------------------

  function Dealt(r: Reader): seq<MessageId> {
    IdsGiven(r.tags) + IdsOf(r.queue)
  }

  lemma {:induction false} FirstDealt(given: seq<MessageId>, queue: seq<RequestInfo>)
    requires queue != []
    ensures given + [queue[0].id] + IdsOf(queue[1..]) == given + IdsOf(queue)
  {
    assert [queue[0].id] + IdsOf(queue[1..]) == IdsOf(queue);
    Regrouped(given, [queue[0].id], IdsOf(queue[1..]));
  }

  lemma {:induction false} FrameDeals(r: Reader, f: Frame)
    ensures Dealt(ReadFrame(r, f)) == Dealt(r)
  {
    if NeedsHeader(r, f) && r.queue != [] {
      GivenAppended(r.tags, Some(r.queue[0].id));
      FirstDealt(IdsGiven(r.tags), r.queue);
    } else {
      GivenAppended(r.tags, None);
    }
  }

  lemma {:induction false} FramesDeal(r: Reader, fs: seq<Frame>)
    ensures Dealt(ReadAll(r, fs)) == Dealt(r)
  {
    if fs != [] {
      FramesDeal(r, fs[..|fs| - 1]);
      FrameDeals(ReadAll(r, fs[..|fs| - 1]), fs[|fs| - 1]);
    }
  }

  lemma {:induction false} QueuedDeals(r: Reader, more: seq<RequestInfo>, headers: seq<RequestInfo>)
    requires Dealt(r) == IdsOf(headers)
    ensures Dealt(Queued(r, more)) == IdsOf(headers + more)
  {
    assert IdsOf(r.queue + more) == IdsOf(r.queue) + IdsOf(more);
    assert IdsOf(headers + more) == IdsOf(headers) + IdsOf(more);
    Regrouped(IdsGiven(r.tags), IdsOf(r.queue), IdsOf(more));
  }

  /** In any session whatsoever, the ids given out and those still queued are those of the requests, in order. */
  lemma {:induction false} TagsInHeaderOrder(h: Session)
    ensures IdsGiven(Play(h).tags) + IdsOf(Play(h).queue) == IdsOf(Headers(h))
  {
    if h != [] {
      var init, e := h[..|h| - 1], h[|h| - 1];
      TagsInHeaderOrder(init);
      FramesDeal(Queued(Play(init), HeaderOf(e)), FramesOf(SubscriptionsAfter(init), e));
      QueuedDeals(Play(init), HeaderOf(e), Headers(init));
      assert Headers(h) == Headers(init) + HeaderOf(e);
    }
  }

  // ---- sessions that stay calm ---------------------------------------------------------------------------

  /** Sound up to the first dummy; from then on only ordinary requests, more dummies, and pushes. */
  predicate Calm(h: Session) {
    h != [] ==> Calm(h[..|h| - 1]) && (h[|h| - 1].Asked? ==> CalmRequest(h[..|h| - 1], h[|h| - 1].request.command))
  }

  predicate CalmRequest(h: Session, c: Command) {
    c.Dummy? || if Dummies(h) == 0 then Sound(TrackedAfter(h), c) else c.Other?
  }

  predicate AllPlain(queue: seq<RequestInfo>) {
    forall i :: 0 <= i < |queue| ==> queue[i].command.Other? || queue[i].command.Dummy?
  }

  /** The same frames are tagged. */
  predicate SameFrames(a: seq<Option<MessageId>>, b: seq<Option<MessageId>>) {
    |a| == |b| && forall i :: 0 <= i < |a| ==> (a[i].Some? <==> b[i].Some?)
  }

  lemma {:induction false} SameFramesCounted(a: seq<Option<MessageId>>, b: seq<Option<MessageId>>)
    requires SameFrames(a, b)
    ensures |IdsGiven(a)| == |IdsGiven(b)|
  {
    if a != [] {
      SameFramesCounted(a[..|a| - 1], b[..|b| - 1]);
    }
  }

  /**
    * Between happenings: the first reply to every request was tagged, with some id, and nothing else was; there is
    * one header in the queue for each dummy.
    */
  ghost predicate Lagging(h: Session) {
    var r := Play(h);
    && !r.starved && r.extra == 0 && r.lists == TrackedAfter(h) && Mirrors(r.lists, SubscriptionsAfter(h))
    && |r.queue| == Dummies(h) && AllPlain(r.queue) && SameFrames(r.tags, Owners(h))
  }

  /** An ordinary request's reply takes the header in front, which changes nothing else. */
  lemma {:induction false} ReadPlain(r: Reader, s: Subscriptions, q: RequestInfo)
    requires !r.starved && r.extra == 0 && Mirrors(r.lists, s) && AllPlain(r.queue) && q.command.Other?
    ensures var queue := r.queue + [q];
            Feed(r, s, Asked(q)) == r.(queue := queue[1..], tags := r.tags + [Some(queue[0].id)])
    ensures OwnersOf(Replies(s, q)) == [Some(q.id)]
  {
    FeedSplits(r, s, q);
    FirstIsNoPush(r, s, q);
    assert Replies(s, q) == [FirstReply(s, q)];
  }

  lemma {:induction false} SoundLags(h: Session, q: RequestInfo)
    requires Lagging(h) && Dummies(h) == 0 && !q.command.Dummy? && Sound(TrackedAfter(h), q.command)
    ensures Lagging(h + [Asked(q)])
  {
    assert (h + [Asked(q)])[..|h|] == h;
    var r, s := Play(h), SubscriptionsAfter(h);
    ReadReplies(r, s, q);
    ExtrasCounted(r.lists, s, q.command);
    TrackingMirrors(r.lists, s, q.command);
  }

  lemma {:induction false} PlainLags(h: Session, q: RequestInfo)
    requires Lagging(h) && q.command.Other?
    ensures Lagging(h + [Asked(q)])
  {
    assert (h + [Asked(q)])[..|h|] == h;
    ReadPlain(Play(h), SubscriptionsAfter(h), q);
  }

  lemma {:induction false} DummyLags(h: Session, q: RequestInfo)
    requires Lagging(h) && q.command.Dummy?
    ensures Lagging(h + [Asked(q)])
  {
    assert (h + [Asked(q)])[..|h|] == h;
    assert Play(h + [Asked(q)]) == Queued(Play(h), [q]);
    assert Owners(h + [Asked(q)]) == Owners(h) + [];
  }

  lemma {:induction false} PushLags(h: Session)
    requires Lagging(h) && SubscriptionsAfter(h).Any()
    ensures Lagging(h + [Pushed])
  {
    assert (h + [Pushed])[..|h|] == h;
    ReadPush(Play(h), SubscriptionsAfter(h));
  }

  /** In a calm session the decoder tags the right frames, though with the ids of earlier requests. */
  lemma {:induction false} CalmLags(h: Session)
    requires Legal(h) && Calm(h)
    ensures Lagging(h)
  {
    if h != [] {
      var init, e := h[..|h| - 1], h[|h| - 1];
      CalmLags(init);
      assert h == init + [e];
      if e.Pushed? {
        PushLags(init);
      } else if e.request.command.Dummy? {
        DummyLags(init, e.request);
      } else if Dummies(init) == 0 {
        SoundLags(init, e.request);
      } else {
        PlainLags(init, e.request);
      }
    }
  }

  lemma {:induction false} GivenConcatNones(tags: seq<Option<MessageId>>, n: nat)
    ensures IdsGiven(tags + Nones(n)) == IdsGiven(tags)
  {
    if n == 0 {
      assert tags + Nones(0) == tags;
    } else {
      GivenConcatNones(tags, n - 1);
      GivenAppended(tags + Nones(n - 1), None);
      Regrouped(tags, Nones(n - 1), [None]);
    }
  }

  lemma {:induction false} ServedNext(headers: seq<RequestInfo>, q: RequestInfo)
    ensures ServerIds(headers + [q]) == if q.command.Dummy? then ServerIds(headers) else ServerIds(headers) + [q.id]
  {
    assert (headers + [q])[..|headers|] == headers;
  }

  /** The frames that have an owner are the first replies to the requests the server saw. */
  lemma {:induction false} OwnersAreServed(h: Session)
    ensures IdsGiven(Owners(h)) == ServerIds(Headers(h))
  {
    if h != [] {
      var init, e := h[..|h| - 1], h[|h| - 1];
      var s := SubscriptionsAfter(init);
      OwnersAreServed(init);
      if e.Pushed? {
        assert OwnersOf([push]) == [None];
        GivenAppended(Owners(init), None);
      } else if e.request.command.Dummy? {
        ServedNext(Headers(init), e.request);
        assert Owners(init) + [] == Owners(init);
      } else {
        ServedNext(Headers(init), e.request);
        var n := ReplyCount(s, e.request.command) - 1;
        RepliesOwned(s, e.request, Owners(init), n);
        ExtrasUnowned(n);
        GivenAppended(Owners(init), Some(e.request.id));
        GivenConcatNones(Owners(init) + [Some(e.request.id)], n);
      }
    }
  }

  // ---- when the tags outnumber the requests ----------------------------------------------------------------

  /** More replies have been tagged than requests were sent to the server. */
  predicate TooMany(h: Session) {
    |IdsGiven(Play(h).tags)| > |ServerIds(Headers(h))|
  }

  lemma {:induction false} CalmNeverTooMany(h: Session)
    requires Legal(h) && Calm(h)
    ensures |IdsGiven(Play(h).tags)| == |ServerIds(Headers(h))|
  {
    CalmLags(h);
    SameFramesCounted(Play(h).tags, Owners(h));
    OwnersAreServed(h);
  }

  lemma {:induction false} GivenGrows(r: Reader, fs: seq<Frame>)
    ensures |IdsGiven(r.tags)| <= |IdsGiven(ReadAll(r, fs).tags)|
  {
    if fs != [] {
      var before := ReadAll(r, fs[..|fs| - 1]);
      GivenGrows(r, fs[..|fs| - 1]);
      var after := ReadFrame(before, fs[|fs| - 1]);
      GivenAppended(before.tags, after.tags[|before.tags|]);
    }
  }

  lemma {:induction false} NextTagged(r: Reader, f: Frame)
    requires r.extra == 0 && !IsPush(r, f) && r.queue != [] && AllPlain([r.queue[0]])
    ensures ReadFrame(r, f) == r.(queue := r.queue[1..], tags := r.tags + [Some(r.queue[0].id)])
    ensures |IdsGiven(ReadFrame(r, f).tags)| == |IdsGiven(r.tags)| + 1
  {
    assert [r.queue[0]][0] == r.queue[0];
    GivenAppended(r.tags, Some(r.queue[0].id));
  }

  lemma {:induction false} AnyNextTagged(r: Reader, f: Frame)
    requires r.extra == 0 && !IsPush(r, f) && r.queue != []
    ensures |IdsGiven(ReadFrame(r, f).tags)| == |IdsGiven(r.tags)| + 1
  {
    GivenAppended(r.tags, Some(r.queue[0].id));
  }

  /** With a header of a dummy in front, the second reply to a request is tagged too. */
  lemma {:induction false} SecondTagged(r: Reader, s: Subscriptions, q: RequestInfo)
    requires r.extra == 0 && Mirrors(r.lists, s) && AllPlain(r.queue) && r.queue != []
    requires !q.command.Dummy? && ReplyCount(s, q.command) > 1
    ensures |IdsGiven(Feed(r, s, Asked(q)).tags)| > |IdsGiven(r.tags)| + 1
  {
    var r0, n, extra := Queued(r, [q]), ReplyCount(s, q.command) - 1, Frame(false, None);
    FeedSplits(r, s, q);
    FirstIsNoPush(r0, s, q);
    NextTagged(r0, FirstReply(s, q));
    var r1 := ReadFrame(r0, FirstReply(s, q));
    AnyNextTagged(r1, extra);
    FirstExtra(n);
    ReadOne(r1, extra);
    ReadConcat(r1, [extra], Extras(n - 1));
    GivenGrows(ReadFrame(r1, extra), Extras(n - 1));
  }

  lemma {:induction false} FirstExtra(n: nat)
    requires n > 0
    ensures Extras(n) == [Frame(false, None)] + Extras(n - 1)
  {
    if n > 1 {
      FirstExtra(n - 1);
    }
  }

  lemma {:induction false} OneTagged(r: Reader, s: Subscriptions, q: RequestInfo)
    requires !r.starved && r.extra == 0 && Mirrors(r.lists, s) && !q.command.Dummy?
    requires r.queue == [] || ReplyCount(s, q.command) == 1
    ensures |IdsGiven(Feed(r, s, Asked(q)).tags)| == |IdsGiven(r.tags)| + 1
  {
    if r.queue == [] {
      ReadReplies(r, s, q);
      var n := ReplyCount(s, q.command) - 1;
      RepliesOwned(s, q, r.tags, n);
      ExtrasUnowned(n);
      GivenAppended(r.tags, Some(q.id));
      GivenConcatNones(r.tags + [Some(q.id)], n);
    } else {
      FeedSplits(r, s, q);
      FirstIsNoPush(r, s, q);
      AnyNextTagged(Queued(r, [q]), FirstReply(s, q));
    }
  }

  /**
    * After a calm session: the tags come to outnumber the requests exactly if a dummy was sent and the next request
    * has more than one reply.
    */
  lemma {:induction false} TooManyExactly(h: Session, q: RequestInfo)
    requires Legal(h) && Calm(h) && !q.command.Dummy?
    ensures TooMany(h + [Asked(q)]) <==> Dummies(h) > 0 && ReplyCount(SubscriptionsAfter(h), q.command) > 1
  {
    assert (h + [Asked(q)])[..|h|] == h;
    CalmLags(h);
    CalmNeverTooMany(h);
    var headers := Headers(h + [Asked(q)]);
    assert headers[..|headers| - 1] == Headers(h);
    if Dummies(h) > 0 && ReplyCount(SubscriptionsAfter(h), q.command) > 1 {
      SecondTagged(Play(h), SubscriptionsAfter(h), q);
    } else {
      ExtrasCounted(Play(h).lists, SubscriptionsAfter(h), q.command);
      OneTagged(Play(h), SubscriptionsAfter(h), q);
    }
  }

  /** What the reader is after the one reply to `q`, with a header of a dummy in front. */
  lemma {:induction false} OnlyReply(r: Reader, s: Subscriptions, q: RequestInfo)
    requires r.extra == 0 && Mirrors(r.lists, s) && AllPlain(r.queue) && r.queue != []
    requires !q.command.Dummy? && ReplyCount(s, q.command) == 1
    ensures Feed(r, s, Asked(q)) == r.(queue := (r.queue + [q])[1..], tags := r.tags + [Some(r.queue[0].id)])
    ensures |IdsGiven(Feed(r, s, Asked(q)).tags)| == |IdsGiven(r.tags)| + 1
  {
    FeedSplits(r, s, q);
    FirstIsNoPush(Queued(r, [q]), s, q);
    NextTagged(Queued(r, [q]), FirstReply(s, q));
  }

  lemma {:induction false} PushRead(r: Reader, s: Subscriptions)
    requires r.extra == 0 && r.queue != []
    ensures |IdsGiven(Feed(r, s, Pushed).tags)| == |IdsGiven(r.tags)| + if r.lists.Any() then 0 else 1
  {
    assert r.queue + [] == r.queue;
    ReadOne(r, push);
    GivenAppended(r.tags, if r.lists.Any() then None else Some(r.queue[0].id));
  }

  lemma {:induction false} PushReadInStep(r: Reader, s: Subscriptions, q: RequestInfo)
    requires !r.starved && r.extra == 0 && r.queue == [] && Mirrors(r.lists, s) && !q.command.Dummy?
    requires Served(s, q.command).Any()
    ensures |IdsGiven(Feed(Feed(r, s, Asked(q)), Served(s, q.command), Pushed).tags)| == |IdsGiven(r.tags)| + 1
  {
    OneTagged(r, s, q);
    ReadReplies(r, s, q);
    TrackingMirrors(r.lists, s, q.command);
    ReadPush(Feed(r, s, Asked(q)), Served(s, q.command));
    assert OwnersOf([push]) == [None];
    GivenAppended(Feed(r, s, Asked(q)).tags, None);
  }

  lemma {:induction false} PlayTwo(h: Session, q: RequestInfo)
    requires !q.command.Dummy?
    ensures var s := SubscriptionsAfter(h);
            && Play(h + [Asked(q)] + [Pushed]) == Feed(Feed(Play(h), s, Asked(q)), Served(s, q.command), Pushed)
            && |ServerIds(Headers(h + [Asked(q)] + [Pushed]))| == |ServerIds(Headers(h))| + 1
            && SubscriptionsAfter(h + [Asked(q)]) == Served(s, q.command)
  {
    var h1 := h + [Asked(q)];
    assert h1[..|h|] == h && (h1 + [Pushed])[..|h1|] == h1;
    ServedNext(Headers(h), q);
  }

  /**
    * And a push behind such a request: it is taken for a reply exactly if a dummy was sent before and nothing was
    * subscribed to until then.
    */
  lemma {:induction false} PushTooManyExactly(h: Session, q: RequestInfo)
    requires Legal(h) && Calm(h) && !q.command.Dummy? && ReplyCount(SubscriptionsAfter(h), q.command) == 1
    requires SubscriptionsAfter(h + [Asked(q)]).Any()
    ensures TooMany(h + [Asked(q)] + [Pushed]) <==> Dummies(h) > 0 && !SubscriptionsAfter(h).Any()
  {
    var r, s := Play(h), SubscriptionsAfter(h);
    CalmLags(h);
    CalmNeverTooMany(h);
    PlayTwo(h, q);
    if r.queue == [] {
      PushReadInStep(r, s, q);
    } else {
      OnlyReply(r, s, q);
      PushRead(Feed(r, s, Asked(q)), Served(s, q.command));
      MirrorsAny(r.lists, s);
    }
  }
}
