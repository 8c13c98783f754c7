/** The source task's record of unanswered requests, from which it makes error replies when the chain fails. */
module PendingRequests {
  import opened Messages

  /** A request as the source task sees it: whether its metadata parses. */
  datatype Incoming = Incoming(id: MessageId, parses: bool)

  /** One record for each kind of protocol; Kafka and OpenSearch have none. */
  datatype Record = Ordered(list: seq<Incoming>) | Unordered(byId: map<MessageId, Incoming>) | Unsupported

  /** An error reply; that of an ordered protocol carries no request id, its place says which request it answers. */
  datatype ErrorReply = ErrorReply(requestId: Option<MessageId>, about: Incoming)

  // ---- the ordered form -----------------------------------------------------------------------------

  function Parsable(rs: seq<Incoming>): seq<Incoming> {
    if rs == [] then []
    else if rs[|rs| - 1].parses then Parsable(rs[..|rs| - 1]) + [rs[|rs| - 1]]
    else Parsable(rs[..|rs| - 1])
  }

  function OrderedErrors(rs: seq<Incoming>): (errors: seq<ErrorReply>)
    ensures |errors| == |Parsable(rs)|
  {
    seq(|Parsable(rs)|, i requires 0 <= i < |Parsable(rs)| => ErrorReply(None, Parsable(rs)[i]))
  }

  function AddAll(byId: map<MessageId, Incoming>, rs: seq<Incoming>): map<MessageId, Incoming> {
    if rs == [] then byId else AddAll(byId, rs[..|rs| - 1])[rs[|rs| - 1].id := rs[|rs| - 1]]
  }

  function Reply(byId: map<MessageId, Incoming>, r: Response): map<MessageId, Incoming> {
    if r.requestId.Some? then byId - {r.requestId.value} else byId
  }

  function RemoveAll(byId: map<MessageId, Incoming>, rs: seq<Response>): map<MessageId, Incoming> {
    if rs == [] then byId else Reply(RemoveAll(byId, rs[..|rs| - 1]), rs[|rs| - 1])
  }

  function Requested(p: Record, rs: seq<Incoming>): Record {
    match p
    case Ordered(list) => Ordered(list + rs)
    case Unordered(byId) => Unordered(AddAll(byId, rs))
    case Unsupported => Unsupported
  }

  /** More replies than requests violates the chain's contract; the whole record is dropped then. */
  function Responded(p: Record, rs: seq<Response>): Record {
    match p
    case Ordered(list) => Ordered(if Solicited(rs) > |list| then [] else list[Solicited(rs)..])
    case Unordered(byId) => Unordered(RemoveAll(byId, rs))
    case Unsupported => Unsupported
  }

  class PendingRequests {
    var record: Record

    constructor (record: Record)
      ensures this.record == record
    {
      this.record := record;
    }

    method ProcessRequests(rs: seq<Incoming>)
      modifies this
      ensures record == Requested(old(record), rs)
    {
      match record
      case Ordered(list) => record := Ordered(list + rs);
      case Unordered(byId) =>
        var all := byId;
        for i := 0 to |rs|
          invariant all == AddAll(byId, rs[..i])
        {
          assert rs[..i + 1][..i] == rs[..i];
          all := all[rs[i].id := rs[i]];
        }
        assert rs[..|rs|] == rs;
        record := Unordered(all);
      case Unsupported =>
    }

    method ProcessResponses(rs: seq<Response>)
      modifies this
      ensures record == Responded(old(record), rs)
      ensures old(record).Ordered? && Solicited(rs) > |old(record).list| ==> record == Ordered([])
    {
      match record
      case Ordered(list) =>
        var received := 0;
        for i := 0 to |rs|
          invariant received == Solicited(rs[..i])
        {
          assert rs[..i + 1][..i] == rs[..i];
          if rs[i].requestId.Some? {
            received := received + 1;
          }
        }
        assert rs[..|rs|] == rs;
        record := Ordered(if received > |list| then [] else list[received..]);
      case Unordered(byId) =>
        var left := byId;
        for i := 0 to |rs|
          invariant left == RemoveAll(byId, rs[..i])
        {
          assert rs[..i + 1][..i] == rs[..i];
          if rs[i].requestId.Some? {
            left := left - {rs[i].requestId.value};
          }
        }
        assert rs[..|rs|] == rs;
        record := Unordered(left);
      case Unsupported =>
    }
  }

  /** `errors` are the replies to all of a map, each once, in any order. */
  ghost predicate UnorderedErrors(byId: map<MessageId, Incoming>, errors: seq<ErrorReply>) {
    && (forall i :: 0 <= i < |errors| ==>
          errors[i].requestId.Some? && errors[i].requestId.value in byId
          && byId[errors[i].requestId.value].parses && errors[i].about == byId[errors[i].requestId.value])
    && (forall i, j :: 0 <= i < j < |errors| ==> errors[i].requestId != errors[j].requestId)
    && (forall id :: id in byId && byId[id].parses ==> exists i :: 0 <= i < |errors| && errors[i].requestId == Some(id))
  }

  /** `to_errors`. */
  ghost predicate IsErrorsOf(p: Record, errors: seq<ErrorReply>) {
    match p
    case Ordered(list) => errors == OrderedErrors(list)
    case Unordered(byId) => UnorderedErrors(byId, errors)
    case Unsupported => errors == []
  }

  method ToErrors(p: Record) returns (errors: seq<ErrorReply>)
    ensures IsErrorsOf(p, errors)
  {
    match p
    case Ordered(list) =>
      errors := [];
      for i := 0 to |list|
        invariant errors == OrderedErrors(list[..i])
      {
        assert list[..i + 1][..i] == list[..i];
        if list[i].parses {
          errors := errors + [ErrorReply(None, list[i])];
        }
      }
      assert list[..|list|] == list;
    case Unordered(byId) =>
      errors := [];
      var left := byId.Keys;
      while left != {}
        invariant left <= byId.Keys
        invariant forall i :: 0 <= i < |errors| ==>
          errors[i].requestId.Some? && errors[i].requestId.value in byId && errors[i].requestId.value !in left
          && byId[errors[i].requestId.value].parses && errors[i].about == byId[errors[i].requestId.value]
        invariant forall i, j :: 0 <= i < j < |errors| ==> errors[i].requestId != errors[j].requestId
        invariant forall id :: id in byId && id !in left && byId[id].parses ==>
          exists i :: 0 <= i < |errors| && errors[i].requestId == Some(id)
      {
        var id :| id in left;
        ghost var before := errors;
        left := left - {id};
        if byId[id].parses {
          errors := errors + [ErrorReply(Some(id), byId[id])];
          assert errors[|before|].requestId == Some(id);
        }
        forall x | x in byId && x !in left && byId[x].parses
          ensures exists i :: 0 <= i < |errors| && errors[i].requestId == Some(x)
        {
          if x != id {
            var i :| 0 <= i < |before| && before[i].requestId == Some(x);
            assert errors[i].requestId == Some(x);
          }
        }
      }
    case Unsupported => errors := [];
  }

  // ---- whole connections --------------------------------------------------------------------------------

  /** A run of the chain: its requests, and the replies that were forwarded. */
  datatype Turn = Turn(requests: seq<Incoming>, replies: seq<Response>)

  function AllRequests(turns: seq<Turn>): seq<Incoming> {
    if turns == [] then [] else AllRequests(turns[..|turns| - 1]) + turns[|turns| - 1].requests
  }

  function AllReplies(turns: seq<Turn>): seq<Response> {
    if turns == [] then [] else AllReplies(turns[..|turns| - 1]) + turns[|turns| - 1].replies
  }

  function Play(start: Record, turns: seq<Turn>): Record {
    if turns == [] then start
    else
      var t := turns[|turns| - 1];
      Responded(Requested(Play(start, turns[..|turns| - 1]), t.requests), t.replies)
  }

  /** The ordered contract: never more replies than requests. */
  predicate NeverAhead(turns: seq<Turn>) {
    turns != [] ==> NeverAhead(turns[..|turns| - 1]) && Solicited(AllReplies(turns)) <= |AllRequests(turns)|
  }

  /** What an ordered record holds: the requests behind as many as were answered. */
  lemma {:induction false} OrderedHoldsRest(turns: seq<Turn>)
    requires NeverAhead(turns)
    ensures Solicited(AllReplies(turns)) <= |AllRequests(turns)|
    ensures Play(Ordered([]), turns) == Ordered(AllRequests(turns)[Solicited(AllReplies(turns))..])
  {
    if turns != [] {
      var init, t := turns[..|turns| - 1], turns[|turns| - 1];
      OrderedHoldsRest(init);
      SolicitedOfConcat(AllReplies(init), t.replies);
      var n, m := Solicited(AllReplies(init)), Solicited(t.replies);
      var rest := AllRequests(init)[n..];
      assert AllRequests(turns)[n..] == rest + t.requests;
      assert AllRequests(turns)[n + m..] == AllRequests(turns)[n..][m..];
    }
  }

  /**
    * An ordered chain fails: the replies already forwarded answer the first requests, and the errors answer
    * the rest, in order, except those whose metadata does not parse. With those set aside every request has
    * exactly one reply.
    */
  lemma {:induction false} OrderedOneReplyEach(turns: seq<Turn>, last: seq<Incoming>, errors: seq<ErrorReply>)
    requires NeverAhead(turns)
    requires IsErrorsOf(Requested(Play(Ordered([]), turns), last), errors)
    ensures var all, n := AllRequests(turns) + last, Solicited(AllReplies(turns));
            && n <= |all|
            && |errors| == |Parsable(all[n..])|
            && Parsable(all) == Parsable(all[..n]) + Parsable(all[n..])
            && forall i :: 0 <= i < |errors| ==> errors[i].about == Parsable(all[n..])[i]
  {
    OrderedHoldsRest(turns);
    SplitRequests(AllRequests(turns), last, Solicited(AllReplies(turns)));
  }

  lemma {:induction false} SplitRequests(earlier: seq<Incoming>, last: seq<Incoming>, n: nat)
    requires n <= |earlier|
    ensures var all := earlier + last;
            earlier[n..] + last == all[n..] && Parsable(all) == Parsable(all[..n]) + Parsable(all[n..])
  {
    var all := earlier + last;
    assert earlier[n..] + last == all[n..] && all[..n] + all[n..] == all;
    ParsableConcat(all[..n], all[n..]);
  }

  lemma {:induction false} ParsableConcat(a: seq<Incoming>, b: seq<Incoming>)
    ensures Parsable(a + b) == Parsable(a) + Parsable(b)
  {
    if b == [] {
      assert a + b == a;
    } else {
      ParsableConcat(a, b[..|b| - 1]);
      assert (a + b)[..|a + b| - 1] == a + b[..|b| - 1];
    }
  }

  // ---- the unordered form ---------------------------------------------------------------------------------

  function Ids(rs: seq<Incoming>): set<MessageId> {
    if rs == [] then {} else Ids(rs[..|rs| - 1]) + {rs[|rs| - 1].id}
  }

  function RepliedIds(rs: seq<Response>): set<MessageId> {
    if rs == [] then {}
    else if rs[|rs| - 1].requestId.Some? then RepliedIds(rs[..|rs| - 1]) + {rs[|rs| - 1].requestId.value}
    else RepliedIds(rs[..|rs| - 1])
  }

  predicate DistinctIds(rs: seq<Incoming>) {
    rs != [] ==> DistinctIds(rs[..|rs| - 1]) && rs[|rs| - 1].id !in Ids(rs[..|rs| - 1])
  }

  /** The unordered contract: ids are not reused, and replies are to requests that were made. */
  predicate Paired(turns: seq<Turn>) {
    && DistinctIds(AllRequests(turns))
    && (turns != [] ==> Paired(turns[..|turns| - 1]) && RepliedIds(AllReplies(turns)) <= Ids(AllRequests(turns)))
  }

  /** Exactly the unanswered requests, each under its own id. */
  ghost predicate HoldsUnanswered(byId: map<MessageId, Incoming>, requests: seq<Incoming>, replied: set<MessageId>) {
    && (forall id :: id in byId <==> id in Ids(requests) && id !in replied)
    && (forall id :: id in byId ==> byId[id].id == id && byId[id] in requests)
  }

  lemma {:induction false} AddingHolds(byId: map<MessageId, Incoming>, requests: seq<Incoming>,
                                       replied: set<MessageId>, more: seq<Incoming>)
    requires HoldsUnanswered(byId, requests, replied) && replied <= Ids(requests) && DistinctIds(requests + more)
    ensures HoldsUnanswered(AddAll(byId, more), requests + more, replied)
  {
    if more == [] {
      assert requests + more == requests;
    } else {
      var init, r := more[..|more| - 1], more[|more| - 1];
      assert (requests + more)[..|requests + more| - 1] == requests + init;
      AddingHolds(byId, requests, replied, init);
      IdsConcat(requests, init);
    }
  }

  lemma {:induction false} IdsConcat(a: seq<Incoming>, b: seq<Incoming>)
    ensures Ids(a + b) == Ids(a) + Ids(b)
  {
    if b == [] {
      assert a + b == a;
    } else {
      IdsConcat(a, b[..|b| - 1]);
      assert (a + b)[..|a + b| - 1] == a + b[..|b| - 1];
    }
  }

  lemma {:induction false} RemovingHolds(byId: map<MessageId, Incoming>, requests: seq<Incoming>,
                                         replied: set<MessageId>, rs: seq<Response>)
    requires HoldsUnanswered(byId, requests, replied)
    ensures HoldsUnanswered(RemoveAll(byId, rs), requests, replied + RepliedIds(rs))
  {
    if rs != [] {
      RemovingHolds(byId, requests, replied, rs[..|rs| - 1]);
    }
  }

  lemma {:induction false} RepliedConcat(a: seq<Response>, b: seq<Response>)
    ensures RepliedIds(a + b) == RepliedIds(a) + RepliedIds(b)
  {
    if b == [] {
      assert a + b == a;
    } else {
      RepliedConcat(a, b[..|b| - 1]);
      assert (a + b)[..|a + b| - 1] == a + b[..|b| - 1];
    }
  }

  lemma {:induction false} UnorderedHoldsRest(turns: seq<Turn>)
    requires Paired(turns)
    ensures Play(Unordered(map[]), turns).Unordered?
    ensures HoldsUnanswered(Play(Unordered(map[]), turns).byId, AllRequests(turns), RepliedIds(AllReplies(turns)))
    ensures RepliedIds(AllReplies(turns)) <= Ids(AllRequests(turns))
  {
    if turns != [] {
      var init, t := turns[..|turns| - 1], turns[|turns| - 1];
      UnorderedHoldsRest(init);
      var byId := Play(Unordered(map[]), init).byId;
      AddingHolds(byId, AllRequests(init), RepliedIds(AllReplies(init)), t.requests);
      RemovingHolds(AddAll(byId, t.requests), AllRequests(turns), RepliedIds(AllReplies(init)), t.replies);
      RepliedConcat(AllReplies(init), t.replies);
    }
  }

  ghost function ErrorIds(errors: seq<ErrorReply>): set<MessageId> {
    set i | 0 <= i < |errors| && errors[i].requestId.Some? :: errors[i].requestId.value
  }

  /** An unordered chain fails: the errors' ids are exactly those of the unanswered requests that parse, each once. */
  lemma {:induction false} UnorderedOneReplyEach(turns: seq<Turn>, last: seq<Incoming>, errors: seq<ErrorReply>)
    requires Paired(turns) && DistinctIds(AllRequests(turns) + last)
    requires IsErrorsOf(Requested(Play(Unordered(map[]), turns), last), errors)
    ensures ErrorIds(errors) == Ids(Parsable(AllRequests(turns) + last)) - RepliedIds(AllReplies(turns))
    ensures forall i :: 0 <= i < |errors| ==> errors[i].requestId.Some?
    ensures forall i, j :: 0 <= i < j < |errors| ==> errors[i].requestId != errors[j].requestId
  {
    UnorderedHoldsRest(turns);
    var byId := Play(Unordered(map[]), turns).byId;
    AddingHolds(byId, AllRequests(turns), RepliedIds(AllReplies(turns)), last);
    ErrorsOfUnanswered(AddAll(byId, last), AllRequests(turns) + last, RepliedIds(AllReplies(turns)), errors);
  }

  lemma {:induction false} ErrorsOfUnanswered(byId: map<MessageId, Incoming>, requests: seq<Incoming>,
                                              replied: set<MessageId>, errors: seq<ErrorReply>)
    requires HoldsUnanswered(byId, requests, replied) && DistinctIds(requests) && UnorderedErrors(byId, errors)
    ensures ErrorIds(errors) == Ids(Parsable(requests)) - replied
  {
    forall id | id in ErrorIds(errors)
      ensures id in Ids(Parsable(requests)) && id !in replied
    {
      ParsableMembers(requests, byId[id]);
      MemberId(Parsable(requests), byId[id]);
    }
    forall id | id in Ids(Parsable(requests)) && id !in replied
      ensures id in ErrorIds(errors)
    {
      var r := IdOfMember(Parsable(requests), id);
      ParsableMembers(requests, r);
      MemberId(requests, r);
      SameId(requests, r, byId[id]);
      var i :| 0 <= i < |errors| && errors[i].requestId == Some(id);
    }
  }

  lemma {:induction false} ParsableMembers(rs: seq<Incoming>, r: Incoming)
    ensures r in Parsable(rs) <==> r in rs && r.parses
  {
    if rs != [] {
      ParsableMembers(rs[..|rs| - 1], r);
      assert r in rs <==> r in rs[..|rs| - 1] || r == rs[|rs| - 1];
    }
  }

  lemma {:induction false} IdOfMember(rs: seq<Incoming>, id: MessageId) returns (r: Incoming)
    requires id in Ids(rs)
    ensures r in rs && r.id == id
  {
    if rs[|rs| - 1].id == id {
      r := rs[|rs| - 1];
    } else {
      r := IdOfMember(rs[..|rs| - 1], id);
    }
  }

  lemma {:induction false} MemberId(rs: seq<Incoming>, r: Incoming)
    requires r in rs
    ensures r.id in Ids(rs)
  {
    if r != rs[|rs| - 1] {
      MemberId(rs[..|rs| - 1], r);
    }
  }

  lemma {:induction false} SameId(rs: seq<Incoming>, a: Incoming, b: Incoming)
    requires DistinctIds(rs) && a in rs && b in rs && a.id == b.id
    ensures a == b
  {
    var init, last := rs[..|rs| - 1], rs[|rs| - 1];
    if a in init && b in init {
      SameId(init, a, b);
    } else if a in init {
      MemberId(init, a);
    } else if b in init {
      MemberId(init, b);
    }
  }
}
