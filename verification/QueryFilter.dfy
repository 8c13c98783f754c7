/** `QueryTypeFilter`: denied requests go down as dummies and come back as errors. */
module QueryFilter {
  import opened Messages

  datatype QueryType = Read | Write | ReadWrite | SchemaChange | PubSubMessage

  datatype Filter = AllowList(types: seq<QueryType>) | DenyList(types: seq<QueryType>)

  /** `errorable`: an error reply can be formed for it. `dummy`: another transform has dropped it already. */
  datatype Query = Query(id: MessageId, queryType: QueryType, errorable: bool, dummy: bool)

  predicate Denied(f: Filter, q: Query) {
    if f.AllowList? then q.queryType !in f.types else q.queryType in f.types
  }

  function ErrorReply(id: MessageId): Response {
    Response(Some(id), Content(-1))
  }

  /** How a call may go wrong: no error could be formed, or a dummy came in, whose type cannot be asked for. */
  datatype Outcome = Passed | Failed | Panicked

  function Verdict(f: Filter, q: Query): Outcome {
    if q.dummy then Panicked else if Denied(f, q) && !q.errorable then Failed else Passed
  }

  // ---- what one query and one reply do --------------------------------------------------------------

  /** `held`: error replies waiting to be sent; `down`: requests sent on; `up`: replies sent back. */
  datatype Filtering = Filtering(held: map<MessageId, Response>, down: seq<Request>, up: seq<Response>)

  function Ask(f: Filter, s: Filtering, q: Query): Filtering {
    s.(down := s.down + [Request(q.id, Denied(f, q))],
       held := if Denied(f, q) then s.held[q.id := ErrorReply(q.id)] else s.held)
  }

  predicate Replaced(s: Filtering, r: Response) {
    r.requestId.Some? && r.requestId.value in s.held
  }

  function Answer(s: Filtering, r: Response): Filtering {
    s.(up := s.up + [if Replaced(s, r) then s.held[r.requestId.value] else r],
       held := if Replaced(s, r) then s.held - {r.requestId.value} else s.held)
  }

  function AskAll(f: Filter, s: Filtering, qs: seq<Query>): Filtering {
    if qs == [] then s else Ask(f, AskAll(f, s, qs[..|qs| - 1]), qs[|qs| - 1])
  }

  function AnswerAll(s: Filtering, rs: seq<Response>): Filtering {
    if rs == [] then s else Answer(AnswerAll(s, rs[..|rs| - 1]), rs[|rs| - 1])
  }

  predicate AllPass(f: Filter, qs: seq<Query>) {
    forall i :: 0 <= i < |qs| ==> Verdict(f, qs[i]) == Passed
  }

  /** What goes down: under an allow list a dummy for each type not listed, under a deny list for each listed. */
  predicate SentByList(f: Filter, qs: seq<Query>, sent: seq<Request>) {
    |sent| == |qs| && forall i :: 0 <= i < |qs| ==> OneByList(f, qs[i], sent[i])
  }

  predicate OneByList(f: Filter, q: Query, r: Request) {
    && r.id == q.id
    && match f
       case AllowList(types) => r.responseIsDummy <==> q.queryType !in types
       case DenyList(types) => r.responseIsDummy <==> q.queryType in types
  }

  lemma {:induction false} SentOneMore(f: Filter, qs: seq<Query>, sent: seq<Request>, q: Query, r: Request)
    requires SentByList(f, qs, sent) && OneByList(f, q, r)
    ensures SentByList(f, qs + [q], sent + [r])
  {
  }

  class QueryTypeFilter {
    const filter: Filter
    var filteredRequests: map<MessageId, Response>
    ghost var down: seq<Request>
    ghost var up: seq<Response>

    ghost function View(): Filtering
      reads this
    {
      Filtering(filteredRequests, down, up)
    }

    constructor (filter: Filter)
      ensures this.filter == filter && View() == Filtering(map[], [], [])
    {
      this.filter := filter;
      filteredRequests, down, up := map[], [], [];
    }

    /** The loop over the requests; it stops at the first that goes wrong. */
    method FilterRequests(qs: seq<Query>) returns (outcome: Outcome, n: nat, sent: seq<Request>)
      modifies this
      ensures n <= |qs| && AllPass(filter, qs[..n])
      ensures if n < |qs| then outcome == Verdict(filter, qs[n]) != Passed else outcome == Passed
      ensures n < |qs| ==> outcome == if qs[n].dummy then Panicked else Failed
      ensures forall i :: 0 <= i < n ==> !qs[i].dummy
      ensures View() == AskAll(filter, old(View()), qs[..n])
      ensures down == old(down) + sent && SentByList(filter, qs[..n], sent)
    {
      n, sent := 0, [];
      while n < |qs|
        invariant n <= |qs| && AllPass(filter, qs[..n])
        invariant forall i :: 0 <= i < n ==> !qs[i].dummy
        invariant View() == AskAll(filter, old(View()), qs[..n])
        invariant down == old(down) + sent && SentByList(filter, qs[..n], sent)
      {
        assert qs[..n + 1][..n] == qs[..n];
        var q := qs[n];
        if q.dummy {
          return Panicked, n, sent;
        }
        var filterOut := match filter
          case AllowList(types) => q.queryType !in types
          case DenyList(types) => q.queryType in types;
        if filterOut {
          if !q.errorable {
            return Failed, n, sent;
          }
          filteredRequests := filteredRequests[q.id := ErrorReply(q.id)];
        }
        SentOneMore(filter, qs[..n], sent, q, Request(q.id, filterOut));
        assert qs[..n] + [q] == qs[..n + 1];
        sent := sent + [Request(q.id, filterOut)];
        down := down + [Request(q.id, filterOut)];
        n := n + 1;
      }
      outcome := Passed;
    }

    /** The loop over the replies. */
    method FilterResponses(rs: seq<Response>) returns (out: seq<Response>)
      modifies this
      ensures View() == AnswerAll(old(View()), rs)
      ensures up == old(up) + out && |out| == |rs|
    {
      out := [];
      for i := 0 to |rs|
        invariant View() == AnswerAll(old(View()), rs[..i])
        invariant up == old(up) + out && |out| == i
      {
        assert rs[..i + 1][..i] == rs[..i];
        var r := rs[i];
        if r.requestId.Some? && r.requestId.value in filteredRequests {
          r := filteredRequests[rs[i].requestId.value];
          filteredRequests := filteredRequests - {rs[i].requestId.value};
        }
        out, up := out + [r], up + [r];
      }
      assert rs[..|rs|] == rs;
    }
  }

  // ---- whole runs above a sink that answers dummies with dummies -----------------------------------------

  datatype Happening = Asked(query: Query) | Answered(reply: Response)

  function Play(f: Filter, hs: seq<Happening>): Filtering {
    if hs == [] then Filtering(map[], [], [])
    else
      var before := Play(f, hs[..|hs| - 1]);
      match hs[|hs| - 1]
      case Asked(q) => Ask(f, before, q)
      case Answered(r) => Answer(before, r)
  }

  /** The queries so far, by id. */
  function Queries(hs: seq<Happening>): map<MessageId, Query> {
    if hs == [] then map[]
    else
      match hs[|hs| - 1]
      case Asked(q) => Queries(hs[..|hs| - 1])[q.id := q]
      case Answered(_) => Queries(hs[..|hs| - 1])
  }

  /** What came from below, in order. */
  function FromBelow(hs: seq<Happening>): seq<Response> {
    if hs == [] then []
    else
      match hs[|hs| - 1]
      case Asked(_) => FromBelow(hs[..|hs| - 1])
      case Answered(r) => FromBelow(hs[..|hs| - 1]) + [r]
  }

  function AnsweredIds(hs: seq<Happening>): set<MessageId> {
    if hs == [] then {}
    else
      match hs[|hs| - 1]
      case Asked(_) => AnsweredIds(hs[..|hs| - 1])
      case Answered(r) => AnsweredIds(hs[..|hs| - 1]) + if r.requestId.Some? then {r.requestId.value} else {}
  }

  /** The sink's promise: it answers a request it was given once, and a dummy with a dummy. */
  predicate Kept(f: Filter, queries: map<MessageId, Query>, answered: set<MessageId>, r: Response) {
    r.requestId.Some? ==>
      var id := r.requestId.value;
      id in queries && id !in answered && (Denied(f, queries[id]) <==> r.body == DummyFrame)
  }

  predicate Sensible(f: Filter, hs: seq<Happening>, h: Happening) {
    match h
    case Asked(q) => q.id !in Queries(hs) && Verdict(f, q) == Passed
    case Answered(r) => Kept(f, Queries(hs), AnsweredIds(hs), r)
  }

  predicate Legal(f: Filter, hs: seq<Happening>) {
    hs != [] ==> Legal(f, hs[..|hs| - 1]) && Sensible(f, hs[..|hs| - 1], hs[|hs| - 1])
  }

  /** The reply the client should get in place of `r`. */
  function Expected(f: Filter, queries: map<MessageId, Query>, r: Response): Response {
    if r.requestId.Some? && r.requestId.value in queries && Denied(f, queries[r.requestId.value])
    then ErrorReply(r.requestId.value) else r
  }

  /** The filter holds exactly the denied requests that are unanswered. */
  ghost predicate HoldsUnanswered(f: Filter, held: map<MessageId, Response>, queries: map<MessageId, Query>,
                                  answered: set<MessageId>)
  {
    && (forall id :: id in held <==> id in queries && Denied(f, queries[id]) && id !in answered)
    && (forall id :: id in held ==> held[id] == ErrorReply(id))
  }

  /** Reply for reply, the client gets what it should. */
  ghost predicate RightReplies(f: Filter, up: seq<Response>, below: seq<Response>, queries: map<MessageId, Query>) {
    && |up| == |below|
    && forall i :: 0 <= i < |up| ==>
         && up[i] == Expected(f, queries, below[i])
         && (below[i].requestId.Some? ==> below[i].requestId.value in queries && up[i].body != DummyFrame)
  }

  /** A denied request went down as a dummy, and only a denied one. */
  ghost predicate RightlySent(f: Filter, down: seq<Request>, queries: map<MessageId, Query>) {
    forall i :: 0 <= i < |down| ==>
      down[i].id in queries && (down[i].responseIsDummy <==> Denied(f, queries[down[i].id]))
  }

  predicate AnsweredWereAsked(answered: set<MessageId>, queries: map<MessageId, Query>) {
    forall id :: id in answered ==> id in queries
  }

  lemma {:induction false} AskKeeps(f: Filter, s: Filtering, qs: map<MessageId, Query>, answered: set<MessageId>,
                                    below: seq<Response>, q: Query)
    requires HoldsUnanswered(f, s.held, qs, answered) && AnsweredWereAsked(answered, qs) && q.id !in qs
    requires RightReplies(f, s.up, below, qs) && RightlySent(f, s.down, qs)
    ensures HoldsUnanswered(f, Ask(f, s, q).held, qs[q.id := q], answered)
    ensures RightReplies(f, s.up, below, qs[q.id := q]) && RightlySent(f, Ask(f, s, q).down, qs[q.id := q])
  {
  }

  lemma {:induction false} AnswerKeeps(f: Filter, s: Filtering, qs: map<MessageId, Query>, answered: set<MessageId>,
                                       below: seq<Response>, r: Response)
    requires HoldsUnanswered(f, s.held, qs, answered) && RightReplies(f, s.up, below, qs)
    requires Kept(f, qs, answered, r)
    ensures HoldsUnanswered(f, Answer(s, r).held, qs, answered + if r.requestId.Some? then {r.requestId.value} else {})
    ensures RightReplies(f, Answer(s, r).up, below + [r], qs)
  {
  }

  /**
    * Over every run, replies coming back in whatever order and however late: the requests held are exactly
    * the denied ones not yet answered, each reply from below goes up as one reply to the same request, a
    * denied request's as its error, and no dummy ever goes up.
    */
  lemma {:induction false} OneReplyEach(f: Filter, hs: seq<Happening>)
    requires Legal(f, hs)
    ensures var s, qs := Play(f, hs), Queries(hs);
            && HoldsUnanswered(f, s.held, qs, AnsweredIds(hs)) && AnsweredWereAsked(AnsweredIds(hs), qs)
            && RightReplies(f, s.up, FromBelow(hs), qs) && RightlySent(f, s.down, qs)
  {
    if hs != [] {
      var init := hs[..|hs| - 1];
      OneReplyEach(f, init);
      match hs[|hs| - 1]
      case Asked(q) => AskKeeps(f, Play(f, init), Queries(init), AnsweredIds(init), FromBelow(init), q);
      case Answered(r) => AnswerKeeps(f, Play(f, init), Queries(init), AnsweredIds(init), FromBelow(init), r);
    }
  }
}
