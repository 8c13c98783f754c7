/** The Valkey sink decoder: matching replies to requests when one request may have many replies, or none. */
module ValkeyPubsub {
  import opened Messages

  type Name = string

  datatype Kind = Channel | Pattern | Shard

  /** A dummy is queued like any other request, but the server never sees it. */
  datatype Command =
    | Subscribe(kind: Kind, names: seq<Name>)
    | Unsubscribe(kind: Kind, names: seq<Name>)
    | Reset
    | Other(messageLike: bool)
    | Dummy

  datatype RequestInfo = RequestInfo(id: MessageId, command: Command)

  // ---- the server ----------------------------------------------------------------------------------

  datatype Subscriptions = Subscriptions(channel: set<Name>, pattern: set<Name>, shard: set<Name>) {
    function Of(k: Kind): set<Name> {
      match k case Channel => channel case Pattern => pattern case Shard => shard
    }

    function With(k: Kind, names: set<Name>): Subscriptions {
      Subscriptions(if k.Channel? then names else channel,
                    if k.Pattern? then names else pattern,
                    if k.Shard? then names else shard)
    }

    predicate Any() {
      channel != {} || pattern != {} || shard != {}
    }
  }

  function SetOf(names: seq<Name>): set<Name> {
    set n | n in names
  }

  /** How many replies the server sends: one per name, and at least one. */
  function ReplyCount(s: Subscriptions, c: Command): nat {
    match c
    case Subscribe(_, names) => AtLeastOne(|names|)
    case Unsubscribe(k, names) => AtLeastOne(if names == [] then |s.Of(k)| else |names|)
    case Reset => 1
    case Other(_) => 1
    case Dummy => 0
  }

  function AtLeastOne(n: nat): nat {
    if n == 0 then 1 else n
  }

  function Served(s: Subscriptions, c: Command): Subscriptions {
    match c
    case Subscribe(k, names) => s.With(k, s.Of(k) + SetOf(names))
    case Unsubscribe(k, names) => s.With(k, if names == [] then {} else s.Of(k) - SetOf(names))
    case Reset => Subscriptions({}, {}, {})
    case Other(_) => s
    case Dummy => s
  }

  /** A frame on the wire: `messageLike` is all the decoder can see; `owner` is the request it is the first reply to. */
  datatype Frame = Frame(messageLike: bool, owner: Option<MessageId>)

  const push := Frame(true, None)

  function Extras(n: nat): (fs: seq<Frame>)
    ensures |fs| == n
  {
    if n == 0 then [] else Extras(n - 1) + [Frame(false, None)]
  }

  /** While subscribed the server answers nothing that looks like a pushed message. */
  function FirstReply(s: Subscriptions, r: RequestInfo): Frame {
    Frame(r.command.Other? && r.command.messageLike && !s.Any(), Some(r.id))
  }

  function Replies(s: Subscriptions, r: RequestInfo): seq<Frame> {
    if r.command.Dummy? then [] else [FirstReply(s, r)] + Extras(ReplyCount(s, r.command) - 1)
  }

  // ---- the decoder ---------------------------------------------------------------------------------

  datatype Lists = Lists(channel: seq<Name>, pattern: seq<Name>, shard: seq<Name>) {
    function Of(k: Kind): seq<Name> {
      match k case Channel => channel case Pattern => pattern case Shard => shard
    }

    function With(k: Kind, names: seq<Name>): Lists {
      Lists(if k.Channel? then names else channel,
            if k.Pattern? then names else pattern,
            if k.Shard? then names else shard)
    }

    /** `is_subscribed`. */
    predicate Any() {
      channel != [] || pattern != [] || shard != []
    }
  }

  /** `retain(|x| !names.contains(x))`. */
  function Retain(list: seq<Name>, names: seq<Name>): seq<Name> {
    if list == [] then []
    else if list[|list| - 1] in names then Retain(list[..|list| - 1], names)
    else Retain(list[..|list| - 1], names) + [list[|list| - 1]]
  }

  function ExtraReplies(l: Lists, c: Command): nat {
    match c
    case Subscribe(_, names) => AtLeastOne(|names|) - 1
    case Unsubscribe(k, names) => AtLeastOne(if names == [] then |l.Of(k)| else |names|) - 1
    case Reset => 0
    case Other(_) => 0
    case Dummy => 0
  }

  function Tracked(l: Lists, c: Command): Lists {
    match c
    case Subscribe(k, names) => l.With(k, l.Of(k) + names)
    case Unsubscribe(k, names) => l.With(k, if names == [] then [] else Retain(l.Of(k), names))
    case Reset => Lists([], [], [])
    case Other(_) => l
    case Dummy => l
  }

  /** The decoder, the header queue in front of it, and the tags it has given so far. */
  datatype Reader = Reader(
    lists: Lists, extra: nat, queue: seq<RequestInfo>, starved: bool, tags: seq<Option<MessageId>>)

  const newReader := Reader(Lists([], [], []), 0, [], false, [])

  predicate IsPush(r: Reader, f: Frame) {
    r.lists.Any() && f.messageLike
  }

  predicate NeedsHeader(r: Reader, f: Frame) {
    !IsPush(r, f) && r.extra == 0
  }

  /** One frame; `starved` once a header was needed and none had ever been queued. */
  function ReadFrame(r: Reader, f: Frame): Reader {
    var first := NeedsHeader(r, f) && r.queue != [];
    Reader(if first then Tracked(r.lists, r.queue[0].command) else r.lists,
           if first then ExtraReplies(r.lists, r.queue[0].command)
           else if IsPush(r, f) || r.extra == 0 then r.extra else r.extra - 1,
           if first then r.queue[1..] else r.queue,
           r.starved || (NeedsHeader(r, f) && r.queue == []),
           r.tags + [if first then Some(r.queue[0].id) else None])
  }

  function ReadAll(r: Reader, fs: seq<Frame>): Reader {
    if fs == [] then r else ReadFrame(ReadAll(r, fs[..|fs| - 1]), fs[|fs| - 1])
  }

  class ValkeyDecoder {
    var subscribed: seq<Name>
    var psubscribed: seq<Name>
    var ssubscribed: seq<Name>
    var pendingExtraResponses: nat

    ghost function Names(): Lists
      reads this
    {
      Lists(subscribed, psubscribed, ssubscribed)
    }

    ghost function View(queue: seq<RequestInfo>): Reader
      reads this
    {
      Reader(Names(), pendingExtraResponses, queue, false, [])
    }

    constructor ()
      ensures View([]) == newReader
    {
      subscribed, psubscribed, ssubscribed := [], [], [];
      pendingExtraResponses := 0;
    }

    static method Retained(list: seq<Name>, names: seq<Name>) returns (kept: seq<Name>)
      ensures kept == Retain(list, names)
    {
      kept := [];
      for i := 0 to |list|
        invariant kept == Retain(list[..i], names)
      {
        assert list[..i + 1][..i] == list[..i];
        if list[i] !in names {
          kept := kept + [list[i]];
        }
      }
      assert list[..|list|] == list;
    }

    method Track(c: Command)
      modifies this
      ensures Names() == Tracked(old(Names()), c)
      ensures pendingExtraResponses ==
        (if c.Reset? then 0 else old(pendingExtraResponses) + ExtraReplies(old(Names()), c))
      ensures c.Reset? ==> subscribed == psubscribed == ssubscribed == []
    {
      match c
      case Subscribe(k, names) =>
        pendingExtraResponses := pendingExtraResponses + if |names| > 0 then |names| - 1 else 0;
        match k {
          case Channel => subscribed := subscribed + names;
          case Pattern => psubscribed := psubscribed + names;
          case Shard => ssubscribed := ssubscribed + names;
        }
      case Unsubscribe(k, names) =>
        var list := match k case Channel => subscribed case Pattern => psubscribed case Shard => ssubscribed;
        var kept := [];
        if names == [] {
          pendingExtraResponses := pendingExtraResponses + if |list| > 0 then |list| - 1 else 0;
        } else {
          pendingExtraResponses := pendingExtraResponses + |names| - 1;
          kept := Retained(list, names);
        }
        match k {
          case Channel => subscribed := kept;
          case Pattern => psubscribed := kept;
          case Shard => ssubscribed := kept;
        }
      case Reset =>
        subscribed, psubscribed, ssubscribed := [], [], [];
        pendingExtraResponses := 0;
      case Other(_) =>
      case Dummy =>
    }

    /** `decode` of one frame; a header is asked for only when the queue has one. */
    method Decode(f: Frame, queue: seq<RequestInfo>) returns (tag: Option<MessageId>, rest: seq<RequestInfo>)
      requires !ReadFrame(View(queue), f).starved
      modifies this
      ensures View(rest).(tags := [tag]) == ReadFrame(old(View(queue)), f)
    {
      tag, rest := None, queue;
      if (subscribed != [] || psubscribed != [] || ssubscribed != []) && f.messageLike {
        return;
      }
      if pendingExtraResponses > 0 {
        pendingExtraResponses := pendingExtraResponses - 1;
        return;
      }
      tag, rest := Some(queue[0].id), queue[1..];
      Track(queue[0].command);
    }
  }

  // ---- whole sessions -----------------------------------------------------------------------------

  /** A request reached the encoder, and the server if it is no dummy; or the server pushed a message. */
  datatype Happening = Asked(request: RequestInfo) | Pushed

  type Session = seq<Happening>

  function SubscriptionsAfter(h: Session): Subscriptions {
    if h == [] then Subscriptions({}, {}, {})
    else
      var e := h[|h| - 1];
      var before := SubscriptionsAfter(h[..|h| - 1]);
      if e.Asked? then Served(before, e.request.command) else before
  }

  /** Messages are pushed to subscribers only. */
  predicate Legal(h: Session) {
    h != [] ==> Legal(h[..|h| - 1]) && (h[|h| - 1].Pushed? ==> SubscriptionsAfter(h[..|h| - 1]).Any())
  }

  function FramesOf(s: Subscriptions, e: Happening): seq<Frame> {
    if e.Asked? then Replies(s, e.request) else [push]
  }

  function Feed(r: Reader, s: Subscriptions, e: Happening): Reader {
    ReadAll(r.(queue := r.queue + if e.Asked? then [e.request] else []), FramesOf(s, e))
  }

  /** The decoder after it has read all the server sent in a session. */
  function Play(h: Session): Reader {
    if h == [] then newReader
    else Feed(Play(h[..|h| - 1]), SubscriptionsAfter(h[..|h| - 1]), h[|h| - 1])
  }

  function OwnersOf(fs: seq<Frame>): (owners: seq<Option<MessageId>>)
    ensures |owners| == |fs|
  {
    seq(|fs|, i requires 0 <= i < |fs| => fs[i].owner)
  }

  /** The tags the frames of a session should get. */
  function Owners(h: Session): seq<Option<MessageId>> {
    if h == [] then []
    else Owners(h[..|h| - 1]) + OwnersOf(FramesOf(SubscriptionsAfter(h[..|h| - 1]), h[|h| - 1]))
  }

  /** Request k's id went to exactly the first reply of request k, and no header was missing. */
  predicate RightTags(h: Session) {
    !Play(h).starved && Play(h).tags == Owners(h)
  }

  // ---- the decoder's lists mirror the server's -------------------------------------------------------

  function TrackedAfter(h: Session): Lists {
    if h == [] then Lists([], [], [])
    else
      var e := h[|h| - 1];
      var before := TrackedAfter(h[..|h| - 1]);
      if e.Asked? then Tracked(before, e.request.command) else before
  }

  predicate Mirrors(l: Lists, s: Subscriptions) {
    SetOf(l.channel) == s.channel && SetOf(l.pattern) == s.pattern && SetOf(l.shard) == s.shard
  }

  lemma {:induction false} RetainSet(list: seq<Name>, names: seq<Name>)
    ensures SetOf(Retain(list, names)) == SetOf(list) - SetOf(names)
  {
    if list != [] {
      var init, last := list[..|list| - 1], list[|list| - 1];
      RetainSet(init, names);
      assert list == init + [last];
      assert SetOf(list) == SetOf(init) + {last};
      if last !in names {
        assert SetOf(Retain(init, names) + [last]) == SetOf(Retain(init, names)) + {last};
      }
    }
  }

  lemma {:induction false} TrackingMirrors(l: Lists, s: Subscriptions, c: Command)
    requires Mirrors(l, s)
    ensures Mirrors(Tracked(l, c), Served(s, c))
  {
    match c
    case Subscribe(k, names) =>
      assert SetOf(l.Of(k) + names) == SetOf(l.Of(k)) + SetOf(names);
    case Unsubscribe(k, names) => RetainSet(l.Of(k), names);
    case _ =>
  }

  lemma {:induction false} MirrorsAny(l: Lists, s: Subscriptions)
    requires Mirrors(l, s)
    ensures l.Any() <==> s.Any()
  {
    forall names: seq<Name> ensures SetOf(names) == {} <==> names == [] {
      if names != [] {
        assert names[0] in SetOf(names);
      }
    }
  }

  // ---- duplicates ------------------------------------------------------------------------------------

  predicate NoDuplicates(names: seq<Name>) {
    forall i, j :: 0 <= i < j < |names| ==> names[i] != names[j]
  }

  lemma {:induction false} DuplicatesCounted(names: seq<Name>)
    ensures |SetOf(names)| <= |names|
    ensures NoDuplicates(names) <==> |SetOf(names)| == |names|
  {
    if names != [] {
      var init, last := names[..|names| - 1], names[|names| - 1];
      DuplicatesCounted(init);
      assert names == init + [last];
      assert SetOf(names) == SetOf(init) + {last};
      if last in init {
        assert SetOf(names) == SetOf(init);
        var i :| 0 <= i < |init| && init[i] == last;
        assert names[i] == names[|names| - 1];
      } else {
        assert last !in SetOf(init);
        assert NoDuplicates(names) <==> NoDuplicates(init);
      }
    }
  }

  /** The two ways to lose step: a dummy, and unsubscribing from everything with a name on the list twice. */
  predicate Sound(l: Lists, c: Command) {
    !c.Dummy? && (c.Unsubscribe? && c.names == [] ==> NoDuplicates(l.Of(c.kind)))
  }

  lemma {:induction false} ExtrasCounted(l: Lists, s: Subscriptions, c: Command)
    requires Mirrors(l, s) && !c.Dummy?
    ensures 1 <= ReplyCount(s, c) <= ExtraReplies(l, c) + 1
    ensures ReplyCount(s, c) == ExtraReplies(l, c) + 1 <==> Sound(l, c)
  {
    if c.Unsubscribe? {
      DuplicatesCounted(l.Of(c.kind));
      assert SetOf(l.Of(c.kind)) == s.Of(c.kind);
    }
  }

  // ---- reading the replies to one request ---------------------------------------------------------------

  function Nones(n: nat): (tags: seq<Option<MessageId>>)
    ensures |tags| == n
  {
    if n == 0 then [] else Nones(n - 1) + [None]
  }

  lemma {:induction false} ReadExtras(r: Reader, n: nat)
    requires !r.starved && n <= r.extra
    ensures ReadAll(r, Extras(n)) == r.(extra := r.extra - n, tags := r.tags + Nones(n))
  {
    if n > 0 {
      ReadExtras(r, n - 1);
      assert Extras(n)[..n - 1] == Extras(n - 1);
      assert r.tags + (Nones(n - 1) + [None]) == r.tags + Nones(n - 1) + [None];
    } else {
      assert r.tags + Nones(0) == r.tags;
    }
  }

  lemma {:induction false} ExtrasUnowned(n: nat)
    ensures OwnersOf(Extras(n)) == Nones(n)
  {
    if n > 0 {
      ExtrasUnowned(n - 1);
      assert OwnersOf(Extras(n)) == OwnersOf(Extras(n - 1)) + [None];
    }
  }

  lemma {:induction false} ReadLast(r: Reader, fs: seq<Frame>, f: Frame)
    ensures ReadAll(r, fs + [f]) == ReadFrame(ReadAll(r, fs), f)
  {
    assert (fs + [f])[..|fs|] == fs;
  }

  lemma {:induction false} ReadConcat(r: Reader, a: seq<Frame>, b: seq<Frame>)
    ensures ReadAll(r, a + b) == ReadAll(ReadAll(r, a), b)
  {
    if b == [] {
      assert a + b == a;
    } else {
      var init, last := b[..|b| - 1], b[|b| - 1];
      ReadConcat(r, a, init);
      ReadLast(r, a + init, last);
      ReadLast(ReadAll(r, a), init, last);
      assert init + [last] == b && a + init + [last] == a + b;
    }
  }

  lemma {:induction false} ReadOne(r: Reader, f: Frame)
    ensures ReadAll(r, [f]) == ReadFrame(r, f)
  {
    assert [f][..0] == [];
  }

  lemma {:induction false} FirstIsNoPush(r: Reader, s: Subscriptions, q: RequestInfo)
    requires Mirrors(r.lists, s)
    ensures !IsPush(r, FirstReply(s, q))
  {
    MirrorsAny(r.lists, s);
  }

  lemma {:induction false} ReadFirstReply(r: Reader, s: Subscriptions, q: RequestInfo)
    requires !r.starved && r.extra == 0 && r.queue == [] && Mirrors(r.lists, s)
    ensures ReadAll(r.(queue := r.queue + [q]), [FirstReply(s, q)])
         == Reader(Tracked(r.lists, q.command), ExtraReplies(r.lists, q.command), [], false, r.tags + [Some(q.id)])
  {
    var r0 := r.(queue := [q]);
    assert r.queue + [q] == [q];
    FirstIsNoPush(r0, s, q);
    ReadOne(r0, FirstReply(s, q));
  }

  lemma {:induction false} RepliesOwned(s: Subscriptions, q: RequestInfo, tags: seq<Option<MessageId>>, n: nat)
    requires !q.command.Dummy? && n == ReplyCount(s, q.command) - 1
    ensures tags + OwnersOf(Replies(s, q)) == tags + [Some(q.id)] + OwnersOf(Extras(n))
  {
  }

  /** The replies to a request, read by a reader in step. */
  function AfterReplies(r: Reader, s: Subscriptions, q: RequestInfo): Reader
    requires ReplyCount(s, q.command) <= ExtraReplies(r.lists, q.command) + 1
  {
    Reader(Tracked(r.lists, q.command), ExtraReplies(r.lists, q.command) + 1 - ReplyCount(s, q.command), [],
           false, r.tags + OwnersOf(Replies(s, q)))
  }

  /** From a reader in step: every reply is tagged rightly, and what is left of `extra` tells if it is still in step. */
  lemma {:induction false} ReadReplies(r: Reader, s: Subscriptions, q: RequestInfo)
    requires !r.starved && r.extra == 0 && r.queue == [] && Mirrors(r.lists, s) && !q.command.Dummy?
    ensures 1 <= ReplyCount(s, q.command) <= ExtraReplies(r.lists, q.command) + 1
    ensures Feed(r, s, Asked(q)) == AfterReplies(r, s, q)
  {
    ExtrasCounted(r.lists, s, q.command);
    var n, first := ReplyCount(s, q.command) - 1, FirstReply(s, q);
    var r0 := r.(queue := r.queue + [q]);
    ReadFirstReply(r, s, q);
    var r1 := ReadAll(r0, [first]);
    ReadExtras(r1, n);
    ExtrasUnowned(n);
    RepliesOwned(s, q, r.tags, n);
    assert ReadAll(r1, Extras(n)) == AfterReplies(r, s, q);
    ReadConcat(r0, [first], Extras(n));
  }

  lemma {:induction false} ReadPush(r: Reader, s: Subscriptions)
    requires !r.starved && Mirrors(r.lists, s) && s.Any()
    ensures Feed(r, s, Pushed) == r.(tags := r.tags + OwnersOf([push]))
  {
    MirrorsAny(r.lists, s);
    assert r.queue + [] == r.queue;
    ReadOne(r, push);
    assert OwnersOf([push]) == [None];
  }

  // ---- sessions in step -----------------------------------------------------------------------------------

  /** Every request of the session was sound. */
  predicate SoundSession(h: Session) {
    h != [] ==>
    && SoundSession(h[..|h| - 1])
    && (h[|h| - 1].Asked? ==> Sound(TrackedAfter(h[..|h| - 1]), h[|h| - 1].request.command))
  }

  ghost predicate InStep(h: Session) {
    && RightTags(h) && Play(h).extra == 0 && Play(h).queue == []
    && Play(h).lists == TrackedAfter(h) && Mirrors(Play(h).lists, SubscriptionsAfter(h))
  }

  lemma {:induction false} HappeningInStep(h: Session, e: Happening)
    requires InStep(h) && Legal(h + [e])
    requires e.Asked? ==> Sound(TrackedAfter(h), e.request.command)
    ensures InStep(h + [e])
  {
    assert (h + [e])[..|h|] == h;
    var r, s := Play(h), SubscriptionsAfter(h);
    if e.Asked? {
      ReadReplies(r, s, e.request);
      ExtrasCounted(r.lists, s, e.request.command);
      TrackingMirrors(r.lists, s, e.request.command);
    } else {
      ReadPush(r, s);
    }
  }

  /**
    * In a sound session every first reply gets its request's id, pushes and extra replies get none, the
    * lists mirror the server's subscriptions, and no header is ever missing or left over.
    */
  lemma {:induction false} StaysInStep(h: Session)
    requires Legal(h) && SoundSession(h)
    ensures InStep(h)
  {
    if h != [] {
      var init := h[..|h| - 1];
      StaysInStep(init);
      assert h == init + [h[|h| - 1]];
      HappeningInStep(init, h[|h| - 1]);
    }
  }

  // ---- sessions out of step ---------------------------------------------------------------------------------

  function Ids(h: Session): set<MessageId> {
    if h == [] then {}
    else Ids(h[..|h| - 1]) + if h[|h| - 1].Asked? then {h[|h| - 1].request.id} else {}
  }

  predicate DistinctIds(h: Session) {
    h != [] ==>
    && DistinctIds(h[..|h| - 1])
    && (h[|h| - 1].Asked? ==> h[|h| - 1].request.id !in Ids(h[..|h| - 1]))
  }

  /** The next first reply will be taken for an extra one, or given an earlier request's id. */
  ghost predicate OutOfStep(h: Session) {
    var r := Play(h);
    && Mirrors(r.lists, SubscriptionsAfter(h))
    && (r.extra > 0 || (r.queue != [] && r.queue[0].id in Ids(h)))
  }

  lemma {:induction false} TagsOnlyGrow(r: Reader, fs: seq<Frame>)
    ensures r.tags <= ReadAll(r, fs).tags
    ensures r.starved ==> ReadAll(r, fs).starved
    ensures |ReadAll(r, fs).tags| == |r.tags| + |fs|
  {
    if fs != [] {
      TagsOnlyGrow(r, fs[..|fs| - 1]);
    }
  }

  lemma {:induction false} TagsCounted(h: Session)
    ensures |Play(h).tags| == |Owners(h)|
  {
    if h != [] {
      var init, e := h[..|h| - 1], h[|h| - 1];
      TagsCounted(init);
      var r := Play(init);
      TagsOnlyGrow(r.(queue := r.queue + if e.Asked? then [e.request] else []), FramesOf(SubscriptionsAfter(init), e));
    }
  }

  /** A wrong tag is never put right. */
  lemma {:induction false} WrongStaysWrong(h: Session, e: Happening)
    requires RightTags(h + [e])
    ensures RightTags(h)
  {
    assert (h + [e])[..|h|] == h;
    var r := Play(h);
    TagsOnlyGrow(r.(queue := r.queue + if e.Asked? then [e.request] else []), FramesOf(SubscriptionsAfter(h), e));
    TagsCounted(h);
    assert Play(h + [e]).tags[..|r.tags|] == r.tags;
    assert Owners(h + [e])[..|r.tags|] == Owners(h);
  }

  lemma {:induction false} FirstFrameTagWrong(r: Reader, s: Subscriptions, q: RequestInfo)
    requires Mirrors(r.lists, s)
    requires r.extra > 0 || (r.queue != [] && r.queue[0].id != q.id)
    ensures var r1 := ReadFrame(r.(queue := r.queue + [q]), FirstReply(s, q));
            |r1.tags| == |r.tags| + 1 && r1.tags[|r.tags|] != Some(q.id)
  {
    FirstIsNoPush(r, s, q);
  }

  lemma {:induction false} FeedSplits(r: Reader, s: Subscriptions, q: RequestInfo)
    requires !q.command.Dummy?
    ensures ReplyCount(s, q.command) >= 1
    ensures Feed(r, s, Asked(q))
         == ReadAll(ReadFrame(r.(queue := r.queue + [q]), FirstReply(s, q)), Extras(ReplyCount(s, q.command) - 1))
  {
    var r0 := r.(queue := r.queue + [q]);
    ReadOne(r0, FirstReply(s, q));
    ReadConcat(r0, [FirstReply(s, q)], Extras(ReplyCount(s, q.command) - 1));
  }

  lemma {:induction false} FirstTagWrong(r: Reader, s: Subscriptions, q: RequestInfo)
    requires Mirrors(r.lists, s) && !q.command.Dummy?
    requires r.extra > 0 || (r.queue != [] && r.queue[0].id != q.id)
    ensures |Feed(r, s, Asked(q)).tags| > |r.tags| && Feed(r, s, Asked(q)).tags[|r.tags|] != Some(q.id)
  {
    FeedSplits(r, s, q);
    FirstFrameTagWrong(r, s, q);
    TagsOnlyGrow(ReadFrame(r.(queue := r.queue + [q]), FirstReply(s, q)), Extras(ReplyCount(s, q.command) - 1));
  }

  /** Out of step, the next request the server sees gets a wrong tag. */
  lemma {:induction false} NextTagWrong(h: Session, q: RequestInfo)
    requires OutOfStep(h) && RightTags(h) && q.id !in Ids(h) && !q.command.Dummy?
    ensures !RightTags(h + [Asked(q)])
  {
    assert (h + [Asked(q)])[..|h|] == h;
    var s := SubscriptionsAfter(h);
    FirstTagWrong(Play(h), s, q);
    assert Owners(h + [Asked(q)])[|Owners(h)|] == Some(q.id);
  }

  lemma {:induction false} DummyPutsOut(h: Session, q: RequestInfo)
    requires !Play(h).starved && Mirrors(Play(h).lists, SubscriptionsAfter(h)) && q.command.Dummy?
    requires OutOfStep(h) || Play(h).queue == []
    ensures OutOfStep(h + [Asked(q)])
  {
    assert (h + [Asked(q)])[..|h|] == h;
    assert Ids(h + [Asked(q)]) == Ids(h) + {q.id};
    assert Play(h + [Asked(q)]) == Play(h).(queue := Play(h).queue + [q]);
  }

  lemma {:induction false} PushChangesNothing(h: Session)
    requires !Play(h).starved && OutOfStep(h) && SubscriptionsAfter(h).Any()
    ensures OutOfStep(h + [Pushed])
  {
    assert (h + [Pushed])[..|h|] == h;
    ReadPush(Play(h), SubscriptionsAfter(h));
    assert Ids(h + [Pushed]) == Ids(h) + {};
  }

  lemma {:induction false} UnsoundPutsOut(h: Session, q: RequestInfo)
    requires InStep(h) && !Sound(TrackedAfter(h), q.command)
    ensures OutOfStep(h + [Asked(q)])
  {
    var r, s := Play(h), SubscriptionsAfter(h);
    if q.command.Dummy? {
      DummyPutsOut(h, q);
    } else {
      assert (h + [Asked(q)])[..|h|] == h;
      ReadReplies(r, s, q);
      ExtrasCounted(r.lists, s, q.command);
      TrackingMirrors(r.lists, s, q.command);
    }
  }

  /** Every session is in step, out of step, or has a wrong tag already. */
  lemma {:induction false} Trichotomy(h: Session)
    requires Legal(h) && DistinctIds(h)
    ensures SoundSession(h) ==> InStep(h)
    ensures !SoundSession(h) && RightTags(h) ==> OutOfStep(h)
  {
    if h != [] {
      var init, e := h[..|h| - 1], h[|h| - 1];
      assert h == init + [e];
      Trichotomy(init);
      if SoundSession(h) {
        HappeningInStep(init, e);
      } else if RightTags(h) {
        WrongStaysWrong(init, e);
        StaysOut(init, e);
      }
    }
  }

  lemma {:induction false} StaysOut(h: Session, e: Happening)
    requires Legal(h + [e]) && DistinctIds(h + [e]) && RightTags(h) && RightTags(h + [e]) && !SoundSession(h + [e])
    requires if SoundSession(h) then InStep(h) else OutOfStep(h)
    ensures OutOfStep(h + [e])
  {
    assert (h + [e])[..|h|] == h;
    if SoundSession(h) {
      UnsoundPutsOut(h, e.request);
    } else if e.Pushed? {
      PushChangesNothing(h);
    } else if e.request.command.Dummy? {
      DummyPutsOut(h, e.request);
    } else {
      NextTagWrong(h, e.request);
      assert false;
    }
  }

  /** The exact condition: when a request the server sees comes last, all tags are right iff all before it was sound. */
  lemma {:induction false} RightExactlyWhenSound(h: Session, q: RequestInfo)
    requires Legal(h) && DistinctIds(h + [Asked(q)]) && !q.command.Dummy?
    ensures RightTags(h + [Asked(q)]) <==> SoundSession(h)
  {
    assert (h + [Asked(q)])[..|h|] == h;
    Trichotomy(h);
    if SoundSession(h) {
      ReadReplies(Play(h), SubscriptionsAfter(h), q);
    } else if RightTags(h + [Asked(q)]) {
      WrongStaysWrong(h, Asked(q));
      NextTagWrong(h, q);
      assert false;
    }
  }

  // ---- when sessions are sound -----------------------------------------------------------------------------------

  /** No dummies, and no name is subscribed to while it is held. */
  predicate NoResubscription(h: Session) {
    h != [] ==>
    && NoResubscription(h[..|h| - 1])
    && (h[|h| - 1].Asked? ==> FirstTime(SubscriptionsAfter(h[..|h| - 1]), h[|h| - 1].request.command))
  }

  predicate FirstTime(s: Subscriptions, c: Command) {
    && !c.Dummy?
    && (c.Subscribe? ==>
          NoDuplicates(c.names) && forall i :: 0 <= i < |c.names| ==> c.names[i] !in s.Of(c.kind))
  }

  predicate CleanLists(l: Lists) {
    NoDuplicates(l.channel) && NoDuplicates(l.pattern) && NoDuplicates(l.shard)
  }

  lemma {:induction false} RetainClean(list: seq<Name>, names: seq<Name>)
    requires NoDuplicates(list)
    ensures NoDuplicates(Retain(list, names))
    ensures forall i :: 0 <= i < |Retain(list, names)| ==> Retain(list, names)[i] in list
  {
    if list != [] {
      RetainClean(list[..|list| - 1], names);
    }
  }

  lemma {:induction false} TrackingClean(l: Lists, s: Subscriptions, c: Command)
    requires CleanLists(l) && Mirrors(l, s) && FirstTime(s, c)
    ensures CleanLists(Tracked(l, c)) && Sound(l, c)
  {
    match c
    case Subscribe(k, names) =>
      assert SetOf(l.Of(k)) == s.Of(k);
      assert forall i :: 0 <= i < |l.Of(k)| ==> l.Of(k)[i] in SetOf(l.Of(k));
    case Unsubscribe(k, names) => RetainClean(l.Of(k), names);
    case _ =>
  }

  lemma {:induction false} NoResubscriptionIsSound(h: Session)
    requires NoResubscription(h)
    ensures SoundSession(h) && CleanLists(TrackedAfter(h)) && Mirrors(TrackedAfter(h), SubscriptionsAfter(h))
  {
    if h != [] {
      var init, e := h[..|h| - 1], h[|h| - 1];
      NoResubscriptionIsSound(init);
      if e.Asked? {
        TrackingClean(TrackedAfter(init), SubscriptionsAfter(init), e.request.command);
        TrackingMirrors(TrackedAfter(init), SubscriptionsAfter(init), e.request.command);
      }
    }
  }

  lemma {:induction false} HeadersAheadOneFrame(r: Reader, ahead: seq<RequestInfo>, f: Frame)
    requires !ReadFrame(r, f).starved
    ensures ReadFrame(r.(queue := r.queue + ahead), f)
         == ReadFrame(r, f).(queue := ReadFrame(r, f).queue + ahead)
  {
    if r.queue != [] {
      assert (r.queue + ahead)[1..] == r.queue[1..] + ahead;
    }
  }

  /** However far the encoder runs ahead, the headers it queues meanwhile change nothing. */
  lemma {:induction false} HeadersAheadIrrelevant(r: Reader, ahead: seq<RequestInfo>, fs: seq<Frame>)
    requires !ReadAll(r, fs).starved
    ensures ReadAll(r.(queue := r.queue + ahead), fs)
         == ReadAll(r, fs).(queue := ReadAll(r, fs).queue + ahead)
  {
    if fs != [] {
      var init, last := fs[..|fs| - 1], fs[|fs| - 1];
      assert !ReadAll(r, init).starved;
      HeadersAheadIrrelevant(r, ahead, init);
      HeadersAheadOneFrame(ReadAll(r, init), ahead, last);
    }
  }

  /** The headers an encoder queues for a session, and the frames a server sends in it. */
  function Headers(h: Session): seq<RequestInfo> {
    if h == [] then []
    else if h[|h| - 1].Asked? then Headers(h[..|h| - 1]) + [h[|h| - 1].request] else Headers(h[..|h| - 1])
  }

  function FramesIn(h: Session): seq<Frame> {
    if h == [] then []
    else FramesIn(h[..|h| - 1]) + FramesOf(SubscriptionsAfter(h[..|h| - 1]), h[|h| - 1])
  }

  function Queued(r: Reader, more: seq<RequestInfo>): Reader {
    r.(queue := r.queue + more)
  }

  lemma {:induction false} QueuedTwice(r: Reader, a: seq<RequestInfo>, b: seq<RequestInfo>)
    ensures Queued(Queued(r, a), b) == Queued(r, a + b) && Queued(r, []) == r
  {
    assert r.queue + a + b == r.queue + (a + b) && r.queue + [] == r.queue;
  }

  function HeaderOf(e: Happening): seq<RequestInfo> {
    if e.Asked? then [e.request] else []
  }

  lemma {:induction false} NotStarvedBefore(r: Reader, e: Happening, frames: seq<Frame>)
    requires !ReadAll(Queued(r, HeaderOf(e)), frames).starved
    ensures !r.starved
  {
    TagsOnlyGrow(Queued(r, HeaderOf(e)), frames);
  }

  lemma {:induction false} HeadersSplit(h: Session, ahead: seq<RequestInfo>)
    requires h != []
    ensures Headers(h[..|h| - 1]) + (HeaderOf(h[|h| - 1]) + ahead) == Headers(h) + ahead
  {
  }

  lemma {:induction false} ReadWithAhead(r: Reader, own: seq<RequestInfo>, ahead: seq<RequestInfo>, frames: seq<Frame>)
    requires !ReadAll(Queued(r, own), frames).starved
    ensures ReadAll(Queued(r, own + ahead), frames) == Queued(ReadAll(Queued(r, own), frames), ahead)
  {
    QueuedTwice(r, own, ahead);
    HeadersAheadIrrelevant(Queued(r, own), ahead, frames);
  }

  /** All headers of a session queued before its first frame is read, and others behind them, change nothing. */
  lemma {:induction false} EncoderAhead(h: Session, ahead: seq<RequestInfo>)
    requires !Play(h).starved
    ensures ReadAll(Queued(newReader, Headers(h) + ahead), FramesIn(h)) == Queued(Play(h), ahead)
  {
    if h == [] {
      assert [] + ahead == ahead;
    } else {
      var init, e := h[..|h| - 1], h[|h| - 1];
      var frames := FramesOf(SubscriptionsAfter(init), e);
      NotStarvedBefore(Play(init), e, frames);
      EncoderAhead(init, HeaderOf(e) + ahead);
      HeadersSplit(h, ahead);
      ReadConcat(Queued(newReader, Headers(h) + ahead), FramesIn(init), frames);
      ReadWithAhead(Play(init), HeaderOf(e), ahead, frames);
    }
  }

  /** A sound session stays in step however far the encoder runs ahead of the decoder. */
  lemma {:induction false} StaysInStepAhead(h: Session, ahead: seq<RequestInfo>)
    requires Legal(h) && SoundSession(h)
    ensures var r := ReadAll(Queued(newReader, Headers(h) + ahead), FramesIn(h));
            && !r.starved && r.tags == Owners(h) && r.queue == ahead && r.extra == 0
            && Mirrors(r.lists, SubscriptionsAfter(h))
  {
    StaysInStep(h);
    EncoderAhead(h, ahead);
    assert [] + ahead == ahead;
  }

  /** A name on the list twice: after unsubscribing from everything, the next reply is not tagged rightly. */
  lemma {:induction false} DuplicateBreaks(h: Session, all: RequestInfo, q: RequestInfo)
    requires Legal(h) && DistinctIds(h + [Asked(all)] + [Asked(q)]) && !q.command.Dummy?
    requires all.command == Unsubscribe(Channel, []) && !NoDuplicates(TrackedAfter(h).channel)
    ensures !RightTags(h + [Asked(all)] + [Asked(q)])
  {
    assert (h + [Asked(all)])[..|h|] == h;
    RightExactlyWhenSound(h + [Asked(all)], q);
  }

  /** So subscribing to one name twice and then unsubscribing from everything loses the step. */
  lemma {:induction false} TwiceSubscribed(name: Name, sub: RequestInfo, all: RequestInfo, q: RequestInfo)
    requires sub.id != all.id && all.id != q.id && sub.id != q.id && !q.command.Dummy?
    requires sub.command == Subscribe(Channel, [name, name]) && all.command == Unsubscribe(Channel, [])
    ensures !RightTags([Asked(sub)] + [Asked(all)] + [Asked(q)])
  {
    var h := [Asked(sub)];
    SubscribedTwice(name, sub);
    IdsAppended(h, all);
    IdsAppended(h + [Asked(all)], q);
    DuplicateBreaks(h, all, q);
  }

  lemma {:induction false} IdsAppended(h: Session, q: RequestInfo)
    ensures Ids(h + [Asked(q)]) == Ids(h) + {q.id}
    ensures DistinctIds(h + [Asked(q)]) <==> DistinctIds(h) && q.id !in Ids(h)
  {
    assert (h + [Asked(q)])[..|h|] == h;
  }

  lemma {:induction false} SubscribedTwice(name: Name, sub: RequestInfo)
    requires sub.command == Subscribe(Channel, [name, name])
    ensures Legal([Asked(sub)]) && DistinctIds([Asked(sub)]) && Ids([Asked(sub)]) == {sub.id}
    ensures !NoDuplicates(TrackedAfter([Asked(sub)]).channel)
  {
    var h := [Asked(sub)];
    assert h[..0] == [];
    assert {} + {sub.id} == {sub.id};
    var none := Lists([], [], []);
    assert TrackedAfter(h[..0]) == none && TrackedAfter(h) == Tracked(none, sub.command);
    var list := TrackedAfter(h).channel;
    assert list == none.channel + [name, name];
    assert list[0] == list[1];
  }
}
