/** The message vocabulary shared by the sink connection, the transforms and the source task. */
module Messages {

  /** Ids are only ever compared, so their 128-bit width plays no part in the model. */
  type MessageId = nat

  datatype Option<+T> = None | Some(value: T)

  /** The content of a reply is opaque; all that matters is whether Shotover made it up. */
  datatype Body = DummyFrame | Content(content: int)

  /** A request as the sink sees it: `responseIsDummy` when no server reply will ever come. */
  datatype Request = Request(id: MessageId, responseIsDummy: bool)

  /** A reply; `requestId` is `None` for pushes and events, which answer no request. */
  datatype Response = Response(requestId: Option<MessageId>, body: Body)

  lemma {:induction false} Regrouped<T>(a: seq<T>, b: seq<T>, c: seq<T>)
    ensures a + b + c == a + (b + c)
  {
  }

  lemma {:induction false} LastOfConcat<T>(a: seq<T>, b: seq<T>)
    requires b != []
    ensures a + b == a + b[..|b| - 1] + [b[|b| - 1]]
  {
  }

  function Min(a: nat, b: nat): nat {
    if a < b then a else b
  }

  function DummyReply(id: MessageId): Response {
    Response(Some(id), DummyFrame)
  }

  /** Number of replies that answer a request. */
  function Solicited(rs: seq<Response>): nat {
    if rs == [] then 0
    else Solicited(rs[..|rs| - 1]) + if rs[|rs| - 1].requestId.Some? then 1 else 0
  }

  /** The replies that answer a request, in order. */
  function SolicitedOf(rs: seq<Response>): (s: seq<Response>)
    ensures |s| == Solicited(rs)
  {
    if rs == [] then []
    else if rs[|rs| - 1].requestId.Some? then SolicitedOf(rs[..|rs| - 1]) + [rs[|rs| - 1]]
    else SolicitedOf(rs[..|rs| - 1])
  }

  /** Replies to no request, in order. */
  function PushesOf(rs: seq<Response>): seq<Response> {
    if rs == [] then []
    else if rs[|rs| - 1].requestId.None? then PushesOf(rs[..|rs| - 1]) + [rs[|rs| - 1]]
    else PushesOf(rs[..|rs| - 1])
  }

  /** No reply from the server is a dummy: only Shotover makes those. */
  predicate FromServer(rs: seq<Response>) {
    forall i :: 0 <= i < |rs| ==> rs[i].body.Content?
  }

  predicate AllSolicited(rs: seq<Response>) {
    forall i :: 0 <= i < |rs| ==> rs[i].requestId.Some?
  }

  lemma {:induction false} SolicitedOfConcat(a: seq<Response>, b: seq<Response>)
    ensures SolicitedOf(a + b) == SolicitedOf(a) + SolicitedOf(b)
  {
    if b == [] {
      assert a + b == a;
    } else {
      SolicitedOfConcat(a, b[..|b| - 1]);
      assert (a + b)[..|a + b| - 1] == a + b[..|b| - 1];
    }
  }

  lemma {:induction false} SolicitedOfAll(rs: seq<Response>)
    requires AllSolicited(rs)
    ensures SolicitedOf(rs) == rs
  {
    if rs != [] {
      SolicitedOfAll(rs[..|rs| - 1]);
      assert rs == rs[..|rs| - 1] + [rs[|rs| - 1]];
    }
  }

  lemma {:induction false} SolicitedOfMembers(rs: seq<Response>)
    ensures AllSolicited(SolicitedOf(rs))
    ensures FromServer(rs) ==> FromServer(SolicitedOf(rs))
  {
    if rs != [] {
      SolicitedOfMembers(rs[..|rs| - 1]);
    }
  }
}
