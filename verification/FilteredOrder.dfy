/** The query filter above a sink connection to a server that answers in order: what the client sees, by position. */
module FilteredOrder {
  import opened Messages
  import opened DummyInserter
  import opened DummyPlacement
  import opened InserterRuns
  import opened QueryFilter
  import opened FilteredSink

  function Allowed(f: Filter, qs: seq<Query>): nat {
    if qs == [] then 0 else Allowed(f, qs[..|qs| - 1]) + if Denied(f, qs[|qs| - 1]) then 0 else 1
  }

  /** What a client should get for `qs`: its error for each denied query, the server's next reply for each other. */
  function Right(f: Filter, qs: seq<Query>, rs: seq<Response>): (out: seq<Response>)
    requires Allowed(f, qs) == |rs|
    ensures |out| == |qs|
  {
    if qs == [] then []
    else
      var init, q := qs[..|qs| - 1], qs[|qs| - 1];
      if Denied(f, q) then Right(f, init, rs) + [ErrorReply(q.id)]
      else Right(f, init, rs[..|rs| - 1]) + [rs[|rs| - 1]]
  }

  lemma {:induction false} RightNext(f: Filter, qs: seq<Query>, q: Query, rs: seq<Response>, r: Response)
    requires Allowed(f, qs) == |rs|
    ensures Allowed(f, qs + [q]) == |rs| + if Denied(f, q) then 0 else 1
    ensures Denied(f, q) ==> Right(f, qs + [q], rs) == Right(f, qs, rs) + [ErrorReply(q.id)]
    ensures !Denied(f, q) ==> Right(f, qs + [q], rs + [r]) == Right(f, qs, rs) + [r]
  {
    assert (qs + [q])[..|qs|] == qs && (rs + [r])[..|rs|] == rs;
  }

  // ---- the filter -----------------------------------------------------------------------------------

  /** Reply number `i` from below is the dummy of query `i`, or a server's that names no query behind query `i`. */
  ghost predicate Fits(f: Filter, asked: seq<Query>, i: nat, r: Response) {
    && i < |asked|
    && if Denied(f, asked[i]) then r == DummyReply(asked[i].id)
       else r.body.Content? && exists k :: 0 <= k <= i && r.requestId == Some(asked[k].id)
  }

  /** Replies come from below in the order of the queries, each after its query, whatever ids they carry. */
  ghost predicate ByPosition(f: Filter, hs: seq<Happening>) {
    hs != [] ==>
      var init := hs[..|hs| - 1];
      && ByPosition(f, init)
      && match hs[|hs| - 1]
         case Asked(q) => NewId(AskedSeq(init), q)
         case Answered(r) => r.requestId.Some? ==> Fits(f, AskedSeq(init), Solicited(FromBelow(init)), r)
  }

  predicate NewId(asked: seq<Query>, q: Query) {
    forall k :: 0 <= k < |asked| ==> asked[k].id != q.id
  }

  predicate Pairwise(asked: seq<Query>) {
    forall j, k :: 0 <= j < k < |asked| ==> asked[j].id != asked[k].id
  }

  /** The errors held are those of the denied queries from number `n` on. */
  ghost predicate HeldFrom(f: Filter, held: map<MessageId, Response>, asked: seq<Query>, n: nat) {
    && (forall k :: n <= k < |asked| && Denied(f, asked[k]) ==> asked[k].id in held)
    && (forall id :: id in held ==>
          held[id] == ErrorReply(id) && exists k :: n <= k < |asked| && asked[k].id == id && Denied(f, asked[k]))
  }

  ghost predicate Shown(f: Filter, up: seq<Response>, asked: seq<Query>, n: nat, server: seq<Response>) {
    n <= |asked| && Allowed(f, asked[..n]) == |server| && up == Right(f, asked[..n], server)
  }

  ghost predicate ShownFor(f: Filter, up: seq<Response>, asked: seq<Query>, below: seq<Response>) {
    Shown(f, SolicitedOf(up), asked, Solicited(below), SolicitedOf(ServerReplies(below)))
  }

  ghost predicate InPlace(f: Filter, s: Filtering, asked: seq<Query>, below: seq<Response>) {
    Pairwise(asked) && HeldFrom(f, s.held, asked, Solicited(below)) && ShownFor(f, s.up, asked, below)
  }

  lemma {:induction false} AskInPlace(f: Filter, s: Filtering, asked: seq<Query>, below: seq<Response>, q: Query)
    requires InPlace(f, s, asked, below) && NewId(asked, q)
    ensures InPlace(f, QueryFilter.Ask(f, s, q), asked + [q], below)
  {
    var n := Solicited(below);
    assert (asked + [q])[..n] == asked[..n];
    HeldOneMore(f, s, asked, n, q);
  }

  lemma {:induction false} HeldOneMore(f: Filter, s: Filtering, asked: seq<Query>, n: nat, q: Query)
    requires HeldFrom(f, s.held, asked, n) && NewId(asked, q) && n <= |asked|
    ensures HeldFrom(f, QueryFilter.Ask(f, s, q).held, asked + [q], n)
  {
    var all, held := asked + [q], QueryFilter.Ask(f, s, q).held;
    forall id | id in held
      ensures held[id] == ErrorReply(id) && exists k :: n <= k < |all| && all[k].id == id && Denied(f, all[k])
    {
      if Denied(f, q) && id == q.id {
        assert all[|asked|].id == id && Denied(f, all[|asked|]);
      } else {
        var k :| n <= k < |asked| && asked[k].id == id && Denied(f, asked[k]);
        assert all[k] == asked[k];
      }
    }
  }

  lemma {:induction false} AppendedReply(rs: seq<Response>, r: Response)
    ensures Solicited(rs + [r]) == Solicited(rs) + if r.requestId.Some? then 1 else 0
    ensures SolicitedOf(rs + [r]) == if r.requestId.Some? then SolicitedOf(rs) + [r] else SolicitedOf(rs)
    ensures ServerReplies(rs + [r]) == if r.body.Content? then ServerReplies(rs) + [r] else ServerReplies(rs)
  {
    assert (rs + [r])[..|rs|] == rs;
  }

  /** A reply that names no query behind the one it answers is never taken for one to a denied query. */
  lemma {:induction false} ReplacedExactly(f: Filter, s: Filtering, asked: seq<Query>, n: nat, r: Response)
    requires Pairwise(asked) && HeldFrom(f, s.held, asked, n) && Fits(f, asked, n, r)
    ensures Replaced(s, r) <==> Denied(f, asked[n])
    ensures Replaced(s, r) ==> s.held[r.requestId.value] == ErrorReply(asked[n].id)
    ensures HeldFrom(f, Answer(s, r).held, asked, n + 1)
  {
    if Denied(f, asked[n]) {
      HeldOneLess(f, s.held, asked, n);
    } else {
      var k :| 0 <= k <= n && r.requestId == Some(asked[k].id);
      assert forall j :: n <= j < |asked| && Denied(f, asked[j]) ==> asked[j].id != asked[k].id;
    }
  }

  lemma {:induction false} HeldOneLess(f: Filter, held: map<MessageId, Response>, asked: seq<Query>, n: nat)
    requires Pairwise(asked) && HeldFrom(f, held, asked, n) && n < |asked| && Denied(f, asked[n])
    ensures HeldFrom(f, held - {asked[n].id}, asked, n + 1)
  {
  }

  lemma {:induction false} ShownNext(f: Filter, up: seq<Response>, asked: seq<Query>, n: nat, server: seq<Response>,
                                     r: Response)
    requires Shown(f, up, asked, n, server) && n < |asked|
    ensures Denied(f, asked[n]) ==> Shown(f, up + [ErrorReply(asked[n].id)], asked, n + 1, server)
    ensures !Denied(f, asked[n]) ==> Shown(f, up + [r], asked, n + 1, server + [r])
  {
    RightNext(f, asked[..n], asked[n], server, r);
    assert asked[..n] + [asked[n]] == asked[..n + 1];
  }

  lemma {:induction false} ErrorShown(f: Filter, up: seq<Response>, asked: seq<Query>, below: seq<Response>, n: nat)
    requires ShownFor(f, up, asked, below) && n == Solicited(below) < |asked| && Denied(f, asked[n])
    ensures ShownFor(f, up + [ErrorReply(asked[n].id)], asked, below + [DummyReply(asked[n].id)])
  {
    AppendedReply(below, DummyReply(asked[n].id));
    AppendedReply(up, ErrorReply(asked[n].id));
    ShownNext(f, SolicitedOf(up), asked, n, SolicitedOf(ServerReplies(below)), DummyReply(asked[n].id));
  }

  lemma {:induction false} ReplyShown(f: Filter, up: seq<Response>, asked: seq<Query>, below: seq<Response>, n: nat,
                                      r: Response)
    requires ShownFor(f, up, asked, below) && n == Solicited(below) < |asked| && !Denied(f, asked[n])
    requires r.requestId.Some? && r.body.Content?
    ensures ShownFor(f, up + [r], asked, below + [r])
  {
    ShownNext(f, SolicitedOf(up), asked, n, SolicitedOf(ServerReplies(below)), r);
    AppendedReply(below, r);
    AppendedReply(ServerReplies(below), r);
    AppendedReply(up, r);
  }

  lemma {:induction false} PushShown(f: Filter, up: seq<Response>, asked: seq<Query>, below: seq<Response>, r: Response)
    requires ShownFor(f, up, asked, below) && r.requestId.None?
    ensures ShownFor(f, up + [r], asked, below + [r])
  {
    AppendedReply(below, r);
    AppendedReply(ServerReplies(below), r);
    AppendedReply(up, r);
  }

  lemma {:induction false} AnswerInPlace(f: Filter, s: Filtering, asked: seq<Query>, below: seq<Response>, r: Response)
    requires InPlace(f, s, asked, below) && (r.requestId.Some? ==> Fits(f, asked, Solicited(below), r))
    ensures InPlace(f, Answer(s, r), asked, below + [r])
  {
    var n := Solicited(below);
    AppendedReply(below, r);
    if r.requestId.None? {
      PushShown(f, s.up, asked, below, r);
    } else {
      ReplacedExactly(f, s, asked, n, r);
      if Denied(f, asked[n]) {
        ErrorShown(f, s.up, asked, below, n);
      } else {
        ReplyShown(f, s.up, asked, below, n, r);
      }
    }
  }

  /** By position, whatever ids the replies carry: what goes up is right, reply for reply. */
  lemma {:induction false} FilterByPosition(f: Filter, hs: seq<Happening>)
    requires ByPosition(f, hs)
    ensures InPlace(f, Play(f, hs), AskedSeq(hs), FromBelow(hs))
  {
    if hs != [] {
      var init := hs[..|hs| - 1];
      FilterByPosition(f, init);
      match hs[|hs| - 1]
      case Asked(q) => AskInPlace(f, Play(f, init), AskedSeq(init), FromBelow(init), q);
      case Answered(r) => AnswerInPlace(f, Play(f, init), AskedSeq(init), FromBelow(init), r);
    }
  }

  // ---- the connection below it ----------------------------------------------------------------------------

  /** No reply names a request behind the one whose turn it is; what it names ahead of that does not matter. */
  ghost predicate NamesNoneBehind(sent: seq<Slot>, rs: seq<Response>) {
    forall i :: 0 <= i < |sent| && sent[i].Real? && Reals(sent[..i]) < |rs| ==>
      exists k :: 0 <= k <= i && rs[Reals(sent[..i])].requestId == Some(sent[k].id)
  }

  /** What a run relies on: the server answers in order, and no push is miscounted. */
  ghost predicate Orderly(events: seq<Event>) {
    && InserterRuns.Legal(events) && NeverClashed(events)
    && NamesNoneBehind(AllSent(events), SolicitedOf(AllArrived(events)))
  }

  lemma {:induction false} RealsOfPrefix(p: seq<Slot>, i: nat)
    requires i <= |p|
    ensures Reals(p[..i]) <= Reals(p) && Reals(p[..i]) <= i
    ensures i < |p| && p[i].Real? ==> Reals(p[..i]) < Reals(p)
  {
    if i < |p| {
      RealsOfPrefix(p[..|p| - 1], i);
      assert p[..|p| - 1][..i] == p[..i];
    } else if i > 0 {
      assert p[..i] == p;
      RealsOfPrefix(p[..|p| - 1], i - 1);
      assert p[..|p| - 1][..i - 1] == p[..|p| - 1];
    }
  }

  lemma {:induction false} AnswersAt(p: seq<Slot>, rs: seq<Response>, i: nat)
    requires Reals(p) == |rs| && i < |p|
    ensures p[i].Real? ==> Reals(p[..i]) < |rs|
    ensures Answers(p, rs)[i] == if p[i].Real? then rs[Reals(p[..i])] else DummyReply(p[i].id)
  {
    RealsOfPrefix(p, i);
    var init := p[..|p| - 1];
    if i < |init| {
      assert init[..i] == p[..i];
      AnswersAt(init, if p[|p| - 1].Real? then rs[..|rs| - 1] else rs, i);
    }
  }

  lemma {:induction false} AnswerFits(f: Filter, asked: seq<Query>, p: seq<Slot>, rest: seq<Slot>, rs: seq<Response>,
                                      i: nat)
    requires Slots(f, asked) == p + rest && Reals(p) == |rs| && i < |p|
    requires NamesNoneBehind(p + rest, rs) && FromServer(rs)
    ensures Fits(f, asked, i, Answers(p, rs)[i])
  {
    var sent := p + rest;
    AnswersAt(p, rs, i);
    assert sent[..i] == p[..i] && p[i] == sent[i] == SlotFor(f, asked[i]);
    if p[i].Real? {
      var k :| 0 <= k <= i && rs[Reals(sent[..i])].requestId == Some(sent[k].id);
      assert sent[k] == SlotFor(f, asked[k]);
    }
  }

  /** Against a server that answers in order, with no push miscounted, replies leave by position. */
  lemma {:induction false} OutputFits(f: Filter, events: seq<Event>, asked: seq<Query>, i: nat)
    requires Orderly(events) && AllSent(events) == Slots(f, asked)
    requires i < |SolicitedOf(Run(events).output)|
    ensures Fits(f, asked, i, SolicitedOf(Run(events).output)[i])
  {
    var s := Run(events);
    RunConserves(events);
    RunInOrderExactly(events);
    ArrivedFromServer(events);
    SolicitedOfMembers(AllArrived(events));
    AnswerFits(f, asked, s.answered, s.pending, SolicitedOf(AllArrived(events)), i);
  }

  lemma {:induction false} AllOutputFits(f: Filter, events: seq<Event>, asked: seq<Query>)
    requires Orderly(events) && AllSent(events) == Slots(f, asked)
    ensures AllFit(f, asked, Run(events).output)
  {
    forall i | 0 <= i < Solicited(Run(events).output) ensures Fits(f, asked, i, SolicitedOf(Run(events).output)[i]) {
      OutputFits(f, events, asked, i);
    }
  }

  lemma {:induction false} ArrivedFromServer(events: seq<Event>)
    requires InserterRuns.Legal(events)
    ensures FromServer(AllArrived(events))
  {
    if events != [] {
      ArrivedFromServer(events[..|events| - 1]);
    }
  }

  ghost predicate AllFit(f: Filter, asked: seq<Query>, below: seq<Response>) {
    forall i :: 0 <= i < Solicited(below) ==> Fits(f, asked, i, SolicitedOf(below)[i])
  }

  lemma {:induction false} AllFitBefore(f: Filter, asked: seq<Query>, below: seq<Response>, r: Response)
    requires AllFit(f, asked, below + [r])
    ensures AllFit(f, asked, below) && (r.requestId.Some? ==> Fits(f, asked, Solicited(below), r))
  {
    AppendedReply(below, r);
    forall i | 0 <= i < Solicited(below) ensures Fits(f, asked, i, SolicitedOf(below)[i]) {
      assert SolicitedOf(below)[i] == SolicitedOf(below + [r])[i];
    }
    assert r.requestId.Some? ==> SolicitedOf(below + [r])[Solicited(below)] == r;
  }

  lemma {:induction false} AnsweredsByPosition(f: Filter, hs: seq<Happening>, rs: seq<Response>)
    requires ByPosition(f, hs) && AllFit(f, AskedSeq(hs), FromBelow(hs) + rs)
    ensures ByPosition(f, hs + Answereds(rs))
  {
    if rs == [] {
      assert hs + Answereds(rs) == hs;
    } else {
      var init, r := rs[..|rs| - 1], rs[|rs| - 1];
      LastOfConcat(FromBelow(hs), rs);
      AllFitBefore(f, AskedSeq(hs), FromBelow(hs) + init, r);
      AnsweredsByPosition(f, hs, init);
      AnsweredsView(hs, init);
      OneMoreByPosition(f, hs + Answereds(init), Answered(r));
      Regrouped(hs, Answereds(init), [Answered(r)]);
    }
  }

  lemma {:induction false} OneMoreByPosition(f: Filter, hs: seq<Happening>, h: Happening)
    requires ByPosition(f, hs)
    requires h.Asked? ==> NewId(AskedSeq(hs), h.query)
    requires h.Answered? && h.reply.requestId.Some? ==> Fits(f, AskedSeq(hs), Solicited(FromBelow(hs)), h.reply)
    ensures ByPosition(f, hs + [h])
  {
    assert (hs + [h])[..|hs|] == hs;
  }

  lemma {:induction false} AsksByPosition(f: Filter, hs: seq<Happening>, qs: seq<Query>)
    requires ByPosition(f, hs) && Pairwise(AskedSeq(hs) + qs)
    ensures ByPosition(f, hs + Asks(qs))
  {
    if qs == [] {
      assert hs + Asks(qs) == hs;
    } else {
      var init, q := qs[..|qs| - 1], qs[|qs| - 1];
      LastOfConcat(AskedSeq(hs), qs);
      PairwiseSplit(AskedSeq(hs) + init, q);
      AsksByPosition(f, hs, init);
      AsksView(hs, init);
      Regrouped(hs, Asks(init), [Asked(q)]);
      OneMoreByPosition(f, hs + Asks(init), Asked(q));
    }
  }

  lemma {:induction false} PairwiseSplit(qs: seq<Query>, q: Query)
    requires Pairwise(qs + [q])
    ensures Pairwise(qs) && NewId(qs, q)
  {
    var all := qs + [q];
    assert forall k :: 0 <= k < |qs| ==> all[k] == qs[k];
    assert all[|qs|] == q;
  }

  lemma {:induction false} PairwiseIds(qs: seq<Query>)
    requires DistinctIds(qs)
    ensures Pairwise(qs) && forall k :: 0 <= k < |qs| ==> qs[k].id in QueryIds(qs)
  {
    if qs != [] {
      PairwiseIds(qs[..|qs| - 1]);
    }
  }

  lemma {:induction false} NamesNoneBehindBefore(sent: seq<Slot>, rs: seq<Response>, moreSent: seq<Slot>,
                                                 moreRs: seq<Response>)
    requires NamesNoneBehind(sent + moreSent, rs + moreRs)
    ensures NamesNoneBehind(sent, rs)
  {
    var allSent, all := sent + moreSent, rs + moreRs;
    forall i | 0 <= i < |sent| && sent[i].Real? && Reals(sent[..i]) < |rs|
      ensures exists k :: 0 <= k <= i && rs[Reals(sent[..i])].requestId == Some(sent[k].id)
    {
      assert allSent[..i] == sent[..i] && allSent[i] == sent[i];
      var k :| 0 <= k <= i && all[Reals(allSent[..i])].requestId == Some(allSent[k].id);
      assert sent[k] == allSent[k];
    }
  }

  lemma {:induction false} OrderlyBefore(f: Filter, turns: seq<Turn>)
    requires turns != [] && Orderly(Events(f, turns))
    ensures Orderly(Events(f, turns[..|turns| - 1]))
  {
    var events, before := Events(f, turns), Events(f, turns[..|turns| - 1]);
    var e := EventOf(f, turns[|turns| - 1]);
    assert events[..|before|] == before;
    EventAppended(before, e);
    SolicitedOfConcat(AllArrived(before), ArrivedBy(e));
    NamesNoneBehindBefore(AllSent(before), SolicitedOf(AllArrived(before)), SentBy(e), SolicitedOf(ArrivedBy(e)));
  }

  lemma {:induction false} TurnByPosition(f: Filter, turns: seq<Turn>, hs: seq<Happening>)
    requires turns != [] && Orderly(Events(f, turns)) && Pairwise(AllAsked(turns))
    requires hs == Happenings(f, turns[..|turns| - 1]) && ByPosition(f, hs)
    ensures ByPosition(f, Happenings(f, turns))
  {
    var init := turns[..|turns| - 1];
    ViewsAgree(f, init);
    ViewsAgree(f, turns);
    match turns[|turns| - 1]
    case Ask(qs) => AsksByPosition(f, hs, qs);
    case Arrive(batch) =>
      var given := Given(Run(Events(f, init)), batch);
      AnsweredsView(hs, given);
      AllOutputFits(f, Events(f, turns), AllAsked(turns));
      AnsweredsByPosition(f, hs, given);
  }

  lemma {:induction false} PairwiseBefore(turns: seq<Turn>)
    requires turns != [] && Pairwise(AllAsked(turns))
    ensures Pairwise(AllAsked(turns[..|turns| - 1]))
  {
    var init := AllAsked(turns[..|turns| - 1]);
    assert forall k :: 0 <= k < |init| ==> init[k] == AllAsked(turns)[k];
  }

  lemma {:induction false} RunByPosition(f: Filter, turns: seq<Turn>)
    requires Orderly(Events(f, turns)) && Pairwise(AllAsked(turns))
    ensures ByPosition(f, Happenings(f, turns))
  {
    if turns != [] {
      var init := turns[..|turns| - 1];
      OrderlyBefore(f, turns);
      PairwiseBefore(turns);
      RunByPosition(f, init);
      TurnByPosition(f, turns, Happenings(f, init));
    }
  }

  /**
    * Over every run against a server that answers in order, with no push miscounted: what the client has been sent is
    * the right replies to a prefix of its queries, in order, a denied query's error in its place. The ids on the
    * server's replies may name earlier requests; if they are right, so are those on the replies to the client.
    */
  lemma {:induction false} ClientSeesRepliesInOrder(f: Filter, turns: seq<Turn>)
    requires Orderly(Events(f, turns)) && DistinctIds(AllAsked(turns))
    ensures var events, up := Events(f, turns), SolicitedOf(Play(f, Happenings(f, turns)).up);
            var n, asked, server := |Run(events).answered|, AllAsked(turns), SolicitedOf(AllArrived(events));
            && Shown(f, up, asked, n, server)
            && (InOrder(AllSent(events), server) ==> forall i :: 0 <= i < n ==> up[i].requestId == Some(asked[i].id))
            && (turns != [] && turns[|turns| - 1].Arrive? && n < |asked| ==> !Denied(f, asked[n]))
  {
    var events, up := Events(f, turns), SolicitedOf(Play(f, Happenings(f, turns)).up);
    ShownInRun(f, turns);
    ViewsAgree(f, turns);
    RunConserves(events);
    if InOrder(AllSent(events), SolicitedOf(AllArrived(events))) {
      ShownIds(f, up, AllAsked(turns), |Run(events).answered|, SolicitedOf(AllArrived(events)));
    }
    if turns != [] && turns[|turns| - 1].Arrive? {
      NextIsReal(f, turns);
    }
  }

  lemma {:induction false} ShownInRun(f: Filter, turns: seq<Turn>)
    requires Orderly(Events(f, turns)) && DistinctIds(AllAsked(turns))
    ensures var events := Events(f, turns);
            Shown(f, SolicitedOf(Play(f, Happenings(f, turns)).up), AllAsked(turns), |Run(events).answered|,
                  SolicitedOf(AllArrived(events)))
  {
    var events := Events(f, turns);
    PairwiseIds(AllAsked(turns));
    RunByPosition(f, turns);
    FilterByPosition(f, Happenings(f, turns));
    ViewsAgree(f, turns);
    RunConserves(events);
    OneReplyPerAnswer(Run(events), AllSent(events), AllArrived(events));
  }

  lemma {:induction false} NextIsReal(f: Filter, turns: seq<Turn>)
    requires InserterRuns.Legal(Events(f, turns)) && turns != [] && turns[|turns| - 1].Arrive?
    ensures var n := |Run(Events(f, turns)).answered|; n < |AllAsked(turns)| ==> !Denied(f, AllAsked(turns)[n])
  {
    var events := Events(f, turns);
    ViewsAgree(f, turns);
    RunConserves(events);
    var n := |Run(events).answered|;
    assert n < |AllAsked(turns)| ==> AllSent(events)[n] == Run(events).pending[0];
  }

  lemma {:induction false} RightAt(f: Filter, qs: seq<Query>, rs: seq<Response>, i: nat)
    requires Allowed(f, qs) == |rs| && i < |qs|
    ensures !Denied(f, qs[i]) ==> Allowed(f, qs[..i]) < |rs|
    ensures Right(f, qs, rs)[i]
         == if Denied(f, qs[i]) then ErrorReply(qs[i].id) else rs[Allowed(f, qs[..i])]
  {
    var init, q := qs[..|qs| - 1], qs[|qs| - 1];
    if i < |init| {
      assert init[..i] == qs[..i];
      RightAt(f, init, if Denied(f, q) then rs else rs[..|rs| - 1], i);
    }
  }

  lemma {:induction false} RealIdAt(p: seq<Slot>, i: nat)
    requires i < |p| && p[i].Real?
    ensures Reals(p[..i]) < Reals(p) && RealIds(p)[Reals(p[..i])] == p[i].id
  {
    if i < |p| - 1 {
      RealIdAt(p[..|p| - 1], i);
      assert p[..|p| - 1][..i] == p[..i];
    }
  }

  lemma {:induction false} AllowedAreReals(f: Filter, qs: seq<Query>)
    ensures Reals(Slots(f, qs)) == Allowed(f, qs)
  {
    if qs != [] {
      AllowedAreReals(f, qs[..|qs| - 1]);
      SlotsLast(f, qs);
    }
  }

  /** Reply number `i` is the error of a denied query, or the server's reply whose turn it is. */
  lemma {:induction false} ShownAt(f: Filter, up: seq<Response>, asked: seq<Query>, n: nat, server: seq<Response>,
                                   i: nat)
    requires Shown(f, up, asked, n, server) && i < n
    ensures Denied(f, asked[i]) ==> up[i] == ErrorReply(asked[i].id)
    ensures !Denied(f, asked[i]) ==>
      var sent, j := Slots(f, asked), Reals(Slots(f, asked)[..i]);
      j < |server| && j < Reals(sent) && up[i] == server[j] && RealIds(sent)[j] == asked[i].id
  {
    var sent := Slots(f, asked);
    assert asked[..n][..i] == asked[..i] && sent[..i] == Slots(f, asked[..i]);
    RightAt(f, asked[..n], server, i);
    AllowedAreReals(f, asked[..i]);
    assert sent[i] == SlotFor(f, asked[i]);
    if !Denied(f, asked[i]) {
      RealIdAt(sent, i);
    }
  }

  lemma {:induction false} ShownIds(f: Filter, up: seq<Response>, asked: seq<Query>, n: nat, server: seq<Response>)
    requires Shown(f, up, asked, n, server) && InOrder(Slots(f, asked), server)
    ensures forall i :: 0 <= i < n ==> up[i].requestId == Some(asked[i].id)
  {
    forall i | 0 <= i < n ensures up[i].requestId == Some(asked[i].id) {
      ShownAt(f, up, asked, n, server, i);
    }
  }
}
