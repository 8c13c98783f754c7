/** Pairing Cassandra replies with their requests by stream id, across the encoder and decoder halves of a codec. */
module CassandraStreamIds {
  import opened Messages

  /** What the encoder half sends to the decoder half about a request. */
  datatype Pair = Pair(stream: int, id: MessageId)

  /**
    * A decoded message: a reply answers the request of `pair`, of which the decoder sees the stream id only, and
    * not even that if the metadata does not parse.
    */
  datatype Incoming = Event(stream: int) | Reply(pair: Pair) | Unreadable(answers: Option<Pair>)

  type Held = map<int, MessageId>

  // ---- one call of the decoder -------------------------------------------------------------------

  /** The map after everything in the channel has been inserted. */
  function Learn(held: Held, channel: seq<Pair>): Held {
    if channel == [] then held
    else
      var last := channel[|channel| - 1];
      Learn(held, channel[..|channel| - 1])[last.stream := last.id]
  }

  /** The id a message is given, if any. */
  function Tag(held: Held, m: Incoming): Option<MessageId> {
    if m.Reply? && m.pair.stream in held then Some(held[m.pair.stream]) else None
  }

  function Forget(held: Held, m: Incoming): Held {
    if m.Reply? then held - {m.pair.stream} else held
  }

  /** The map after a batch of messages was tagged. */
  function Left(held: Held, batch: seq<Incoming>): Held {
    if batch == [] then held else Forget(Left(held, batch[..|batch| - 1]), batch[|batch| - 1])
  }

  function Tags(held: Held, batch: seq<Incoming>): (tags: seq<Option<MessageId>>)
    ensures |tags| == |batch|
  {
    if batch == [] then []
    else
      var init := batch[..|batch| - 1];
      Tags(held, init) + [Tag(Left(held, init), batch[|batch| - 1])]
  }

  class ReplyTagger {
    var streamIdToRequestId: Held

    constructor ()
      ensures streamIdToRequestId == map[]
    {
      streamIdToRequestId := map[];
    }

    /** The second half of `decode`: drain the channel, then tag the decoded messages. */
    method TagBatch(channel: seq<Pair>, batch: seq<Incoming>) returns (tags: seq<Option<MessageId>>)
      modifies this
      ensures streamIdToRequestId == Left(Learn(old(streamIdToRequestId), channel), batch)
      ensures tags == Tags(Learn(old(streamIdToRequestId), channel), batch)
    {
      ghost var before := streamIdToRequestId;
      for i := 0 to |channel|
        invariant streamIdToRequestId == Learn(before, channel[..i])
      {
        assert channel[..i + 1][..i] == channel[..i];
        streamIdToRequestId := streamIdToRequestId[channel[i].stream := channel[i].id];
      }
      assert channel[..|channel|] == channel;
      ghost var learnt := streamIdToRequestId;
      tags := [];
      for i := 0 to |batch|
        invariant streamIdToRequestId == Left(learnt, batch[..i])
        invariant tags == Tags(learnt, batch[..i])
      {
        assert batch[..i + 1][..i] == batch[..i];
        var tag := None;
        if batch[i].Reply? && batch[i].pair.stream in streamIdToRequestId {
          tag := Some(streamIdToRequestId[batch[i].pair.stream]);
          streamIdToRequestId := streamIdToRequestId - {batch[i].pair.stream};
        }
        tags := tags + [tag];
      }
      assert batch[..|batch|] == batch;
    }
  }

  // ---- the protocol ------------------------------------------------------------------------------

  /**
    * `outgoing`: encoded; `server`: received by the server; `wire`: answered, not yet decoded. `lost` are the
    * requests whose reply could not be read.
    */
  datatype State = State(
    outgoing: set<Pair>, server: set<Pair>, wire: set<Pair>, lost: set<Pair>,
    channel: seq<Pair>, held: Held, log: seq<(Incoming, Option<MessageId>)>)

  /** `Decode` takes any answered replies, in any order, mixed with any events. */
  datatype Move =
    | Encode(pair: Pair, dummy: bool) | Deliver(pair: Pair) | Answer(pair: Pair) | Decode(batch: seq<Incoming>)

  const start := State({}, {}, {}, {}, [], map[], [])

  function InFlight(s: State): set<Pair> {
    s.outgoing + s.server + s.wire
  }

  /** The request a message answers, readable or not. */
  function Takes(m: Incoming): set<Pair> {
    match m
    case Event(_) => {}
    case Reply(p) => {p}
    case Unreadable(answers) => if answers.Some? then {answers.value} else {}
  }

  function TakesAll(batch: seq<Incoming>): set<Pair> {
    if batch == [] then {} else TakesAll(batch[..|batch| - 1]) + Takes(batch[|batch| - 1])
  }

  /** The replies of a batch are on the wire, each once. */
  predicate OnWire(wire: set<Pair>, batch: seq<Incoming>) {
    batch != [] ==>
    OnWire(wire, batch[..|batch| - 1]) && Takes(batch[|batch| - 1]) <= wire - TakesAll(batch[..|batch| - 1])
  }

  function Loses(m: Incoming): set<Pair> {
    if m.Unreadable? && m.answers.Some? then {m.answers.value} else {}
  }

  function LosesAll(batch: seq<Incoming>): set<Pair> {
    if batch == [] then {} else LosesAll(batch[..|batch| - 1]) + Loses(batch[|batch| - 1])
  }

  predicate Possible(s: State, m: Move) {
    match m
    case Encode(_, _) => true
    case Deliver(p) => p in s.outgoing
    case Answer(p) => p in s.server
    case Decode(batch) => OnWire(s.wire, batch)
  }

  /** The driver's half of the protocol: a stream id is not used again until its reply has been read. */
  ghost predicate NoReuse(s: State, m: Move) {
    m.Encode? && !m.dummy ==> forall p :: p in InFlight(s) ==> p.stream != m.pair.stream
  }

  function Next(s: State, m: Move): State
    requires Possible(s, m)
  {
    match m
    case Encode(p, dummy) =>
      if dummy then s else s.(channel := s.channel + [p], outgoing := s.outgoing + {p})
    case Deliver(p) => s.(outgoing := s.outgoing - {p}, server := s.server + {p})
    case Answer(p) => s.(server := s.server - {p}, wire := s.wire + {p})
    case Decode(batch) => Decoded(s, batch)
  }

  function Decoded(s: State, batch: seq<Incoming>): State {
    var learnt := Learn(s.held, s.channel);
    State(s.outgoing, s.server, s.wire - TakesAll(batch), s.lost + LosesAll(batch),
          [], Left(learnt, batch), s.log + Logged(learnt, batch))
  }

  function Logged(learnt: Held, batch: seq<Incoming>): seq<(Incoming, Option<MessageId>)> {
    seq(|batch|, i requires 0 <= i < |batch| => (batch[i], Tags(learnt, batch)[i]))
  }

  ghost predicate IsRun(states: seq<State>, moves: seq<Move>) {
    && |states| == |moves| + 1 && states[0] == start
    && forall i :: 0 <= i < |moves| ==>
         Possible(states[i], moves[i]) && NoReuse(states[i], moves[i]) && states[i + 1] == Next(states[i], moves[i])
  }

  // ---- the invariant -------------------------------------------------------------------------------

  /** No stream id twice. */
  ghost predicate Distinct(ps: set<Pair>) {
    forall p, q :: p in ps && q in ps && p.stream == q.stream ==> p == q
  }

  /** Every pair in flight is in the map. */
  ghost predicate Knows(held: Held, flight: set<Pair>) {
    forall p :: p in flight ==> p.stream in held && held[p.stream] == p.id
  }

  /** Nothing is in the map but pairs in flight and lost ones. */
  ghost predicate NoMore(held: Held, flight: set<Pair>, lost: set<Pair>) {
    forall k :: k in held ==> Pair(k, held[k]) in flight || Pair(k, held[k]) in lost
  }

  ghost predicate RightlyTagged(entry: (Incoming, Option<MessageId>)) {
    entry.1 == if entry.0.Reply? then Some(entry.0.pair.id) else None
  }

  ghost predicate AllRight(log: seq<(Incoming, Option<MessageId>)>) {
    forall i :: 0 <= i < |log| ==> RightlyTagged(log[i])
  }

  /** The channel holds pairs in flight, each once, and none that is in the map, lost ones aside. */
  ghost predicate ChannelRight(channel: seq<Pair>, held: Held, flight: set<Pair>, lost: set<Pair>) {
    && (forall i :: 0 <= i < |channel| ==> channel[i] in flight)
    && (forall i, j :: 0 <= i < j < |channel| ==> channel[i].stream != channel[j].stream)
    && (forall i :: 0 <= i < |channel| && channel[i].stream in held ==>
          Pair(channel[i].stream, held[channel[i].stream]) in lost)
  }

  /**
    * The map and the channel hold exactly the pairs in flight, each once; what else is in the map is of requests
    * whose reply could not be read; and every tag so far was right.
    */
  ghost predicate Inv(s: State) {
    && Distinct(InFlight(s)) && s.outgoing !! s.server !! s.wire
    && ChannelRight(s.channel, s.held, InFlight(s), s.lost)
    && (forall p :: p in InFlight(s) ==> p in s.channel || (p.stream in s.held && s.held[p.stream] == p.id))
    && NoMore(s.held, InFlight(s), s.lost)
    && AllRight(s.log)
  }

  // ---- learning ---------------------------------------------------------------------------------------

  lemma {:induction false} LearntFrom(held: Held, channel: seq<Pair>, k: int)
    requires forall i, j :: 0 <= i < j < |channel| ==> channel[i].stream != channel[j].stream
    ensures k in Learn(held, channel) ==>
      Pair(k, Learn(held, channel)[k]) in channel || (k in held && held[k] == Learn(held, channel)[k])
    ensures k in held ==> k in Learn(held, channel)
    ensures forall i :: 0 <= i < |channel| && channel[i].stream == k ==>
      k in Learn(held, channel) && Learn(held, channel)[k] == channel[i].id
  {
    if channel != [] {
      LearntFrom(held, channel[..|channel| - 1], k);
      assert channel == channel[..|channel| - 1] + [channel[|channel| - 1]];
    }
  }

  lemma {:induction false} LearnsAll(s: State)
    requires Inv(s)
    ensures Knows(Learn(s.held, s.channel), InFlight(s)) && NoMore(Learn(s.held, s.channel), InFlight(s), s.lost)
  {
    var learnt := Learn(s.held, s.channel);
    forall p | p in InFlight(s) ensures p.stream in learnt && learnt[p.stream] == p.id {
      LearntFrom(s.held, s.channel, p.stream);
    }
    forall k | k in learnt ensures Pair(k, learnt[k]) in InFlight(s) || Pair(k, learnt[k]) in s.lost {
      LearntFrom(s.held, s.channel, k);
    }
  }

  // ---- tagging ----------------------------------------------------------------------------------------

  /** The map knows what is in flight, and no more. */
  ghost predicate Exact(held: Held, flight: set<Pair>, lost: set<Pair>) {
    Distinct(flight) && Knows(held, flight) && NoMore(held, flight, lost)
  }

  /** One message: a reply gets its own id and takes its pair out, anything else gets none. */
  lemma {:induction false} TagOne(held: Held, flight: set<Pair>, lost: set<Pair>, m: Incoming)
    requires Exact(held, flight, lost) && Takes(m) <= flight
    ensures RightlyTagged((m, Tag(held, m)))
    ensures Exact(Forget(held, m), flight - Takes(m), lost + Loses(m))
  {
    match m
    case Event(_) =>
    case Reply(p) => assert p in flight;
    case Unreadable(_) =>
  }

  /** A batch: each reply is tagged with its own request's id, and the map stays exact. */
  lemma {:induction false} TaggingExact(held: Held, flight: set<Pair>, lost: set<Pair>, batch: seq<Incoming>)
    requires Exact(held, flight, lost) && OnWire(flight, batch)
    ensures Exact(Left(held, batch), flight - TakesAll(batch), lost + LosesAll(batch))
  {
    if batch == [] {
      assert flight - {} == flight && lost + {} == lost;
    } else {
      var init, m := batch[..|batch| - 1], batch[|batch| - 1];
      TaggingExact(held, flight, lost, init);
      TagOne(Left(held, init), flight - TakesAll(init), lost + LosesAll(init), m);
      assert flight - TakesAll(init) - Takes(m) == flight - TakesAll(batch);
      assert lost + LosesAll(init) + Loses(m) == lost + LosesAll(batch);
    }
  }

  lemma {:induction false} TagsRightly(held: Held, flight: set<Pair>, lost: set<Pair>, batch: seq<Incoming>, i: nat)
    requires Exact(held, flight, lost) && OnWire(flight, batch) && i < |batch|
    ensures RightlyTagged((batch[i], Tags(held, batch)[i]))
  {
    var init, m := batch[..|batch| - 1], batch[|batch| - 1];
    if i < |init| {
      TagsRightly(held, flight, lost, init, i);
    } else {
      TaggingExact(held, flight, lost, init);
      TagOne(Left(held, init), flight - TakesAll(init), lost + LosesAll(init), m);
    }
  }

  // ---- every move keeps it -------------------------------------------------------------------------------

  lemma {:induction false} EncodeKeeps(s: State, p: Pair)
    requires Inv(s) && NoReuse(s, Encode(p, false))
    ensures Inv(Next(s, Encode(p, false)))
  {
    assert InFlight(Next(s, Encode(p, false))) == InFlight(s) + {p};
  }

  lemma {:induction false} OnLargerWire(wire: set<Pair>, flight: set<Pair>, batch: seq<Incoming>)
    requires OnWire(wire, batch) && wire <= flight
    ensures OnWire(flight, batch) && TakesAll(batch) <= wire
  {
    if batch != [] {
      OnLargerWire(wire, flight, batch[..|batch| - 1]);
    }
  }

  lemma {:induction false} LoggedRight(s: State, learnt: Held, batch: seq<Incoming>)
    requires Exact(learnt, InFlight(s), s.lost) && OnWire(InFlight(s), batch)
    ensures AllRight(Logged(learnt, batch))
  {
    forall i | 0 <= i < |batch| ensures RightlyTagged(Logged(learnt, batch)[i]) {
      TagsRightly(learnt, InFlight(s), s.lost, batch, i);
    }
  }

  lemma {:induction false} DecodeKeeps(s: State, batch: seq<Incoming>)
    requires Inv(s) && Possible(s, Decode(batch))
    ensures Inv(Decoded(s, batch))
  {
    var learnt := Learn(s.held, s.channel);
    LearnsAll(s);
    OnLargerWire(s.wire, InFlight(s), batch);
    TaggingExact(learnt, InFlight(s), s.lost, batch);
    LoggedRight(s, learnt, batch);
    assert InFlight(Decoded(s, batch)) == InFlight(s) - TakesAll(batch);
    ExactIsInv(Decoded(s, batch), s.log, Logged(learnt, batch));
  }

  /** With an empty channel the map alone holds everything. */
  lemma {:induction false} ExactIsInv(t: State, earlier: seq<(Incoming, Option<MessageId>)>,
                                      new': seq<(Incoming, Option<MessageId>)>)
    requires t.channel == [] && Exact(t.held, InFlight(t), t.lost) && t.outgoing !! t.server !! t.wire
    requires t.log == earlier + new' && AllRight(earlier) && AllRight(new')
    ensures Inv(t)
  {
  }

  lemma {:induction false} MoveKeeps(s: State, m: Move)
    requires Inv(s) && Possible(s, m) && NoReuse(s, m)
    ensures Inv(Next(s, m))
  {
    match m
    case Encode(p, dummy) => if !dummy { EncodeKeeps(s, p); }
    case Deliver(_) => assert InFlight(Next(s, m)) == InFlight(s);
    case Answer(_) => assert InFlight(Next(s, m)) == InFlight(s);
    case Decode(batch) => DecodeKeeps(s, batch);
  }

  /** In every state of every run, unreadable replies included. */
  lemma {:induction false} PairingHolds(states: seq<State>, moves: seq<Move>, i: nat)
    requires IsRun(states, moves) && i < |states|
    ensures Inv(states[i])
  {
    if i > 0 {
      PairingHolds(states, moves, i - 1);
      MoveKeeps(states[i - 1], moves[i - 1]);
      assert states[i] == Next(states[i - 1], moves[i - 1]);
    }
  }

  /** The state after any moves, whether or not the driver keeps its half. */
  function Play(s: State, moves: seq<Move>): Option<State> {
    if moves == [] then Some(s)
    else
      var before, m := Play(s, moves[..|moves| - 1]), moves[|moves| - 1];
      if before.Some? && Possible(before.value, m) then Some(Next(before.value, m)) else None
  }

  lemma {:induction false} PlayAppended(s: State, moves: seq<Move>, m: Move, before: State)
    requires Play(s, moves) == Some(before) && Possible(before, m)
    ensures Play(s, moves + [m]) == Some(Next(before, m))
  {
    assert (moves + [m])[..|moves|] == moves;
  }

  lemma {:induction false} ReuseTags(stream: int, a: MessageId, b: MessageId)
    ensures var p, q := Pair(stream, a), Pair(stream, b);
            Tags(Learn(map[], [p] + [q]), [Reply(p), Reply(q)]) == [Some(b), None]
  {
    var p, q := Pair(stream, a), Pair(stream, b);
    assert ([p] + [q])[..1] == [p] && [p][..0] == [];
    assert Learn(map[], [p]) == map[stream := a];
    assert Learn(map[], [p] + [q]) == map[stream := b];
    var batch := [Reply(p), Reply(q)];
    assert batch[..1] == [Reply(p)] && batch[..1][..0] == [];
    assert Left(map[stream := b], batch[..1]) == map[];
  }

  /** Both requests encoded, delivered and answered. */
  function BothAnswered(p: Pair, q: Pair): State {
    State({}, {}, {p, q}, {}, [p] + [q], map[], [])
  }

  lemma {:induction false} ReuseRun(p: Pair, q: Pair) returns (moves: seq<Move>)
    requires p != q
    ensures Play(start, moves) == Some(BothAnswered(p, q))
  {
    var s1 := start.(outgoing := {p}, channel := [p]);
    assert {} + {p} == {p} && [] + [p] == [p];
    PlayAppended(start, [], Encode(p, false), start);
    var m1 := [] + [Encode(p, false)];
    var s2 := s1.(outgoing := {p, q}, channel := [p] + [q]);
    assert {p} + {q} == {p, q};
    PlayAppended(start, m1, Encode(q, false), s1);
    moves := SentOn(m1 + [Encode(q, false)], s2, p, q);
  }

  lemma {:induction false} SentOn(moves: seq<Move>, s: State, p: Pair, q: Pair) returns (all: seq<Move>)
    requires p != q && Play(start, moves) == Some(s)
    requires s == start.(outgoing := {p, q}, channel := [p] + [q])
    ensures Play(start, all) == Some(BothAnswered(p, q))
  {
    var s1 := s.(outgoing := {q}, server := {p});
    assert {p, q} - {p} == {q} && {} + {p} == {p};
    PlayAppended(start, moves, Deliver(p), s);
    var s2 := s1.(server := {}, wire := {p});
    assert {p} - {p} == {};
    PlayAppended(start, moves + [Deliver(p)], Answer(p), s1);
    var s3 := s2.(outgoing := {}, server := {q});
    assert {q} - {q} == {} && {} + {q} == {q};
    PlayAppended(start, moves + [Deliver(p)] + [Answer(p)], Deliver(q), s2);
    assert {p} + {q} == {p, q};
    PlayAppended(start, moves + [Deliver(p)] + [Answer(p)] + [Deliver(q)], Answer(q), s3);
    all := moves + [Deliver(p)] + [Answer(p)] + [Deliver(q)] + [Answer(q)];
  }

  lemma {:induction false} BothOnWire(p: Pair, q: Pair)
    requires p != q
    ensures OnWire({p, q}, [Reply(p), Reply(q)])
  {
    var batch := [Reply(p), Reply(q)];
    var first := batch[..1];
    assert first == [Reply(p)] && first[..0] == [];
    assert TakesAll(first[..0]) == {} && Takes(Reply(p)) <= {p, q} - {};
    assert OnWire({p, q}, first) && TakesAll(first) == {} + {p};
    assert Takes(Reply(q)) <= {p, q} - {p};
  }

  /**
    * When the driver breaks its half: a run in which the first reply is given the second request's id and the second
    * none.
    */
  lemma {:induction false} ReuseMistags(stream: int, a: MessageId, b: MessageId) returns (moves: seq<Move>)
    requires a != b
    ensures var p, q := Pair(stream, a), Pair(stream, b);
            && Play(start, moves).Some?
            && Play(start, moves).value.log == [(Reply(p), Some(b)), (Reply(q), None)]
  {
    var p, q := Pair(stream, a), Pair(stream, b);
    var batch, s := [Reply(p), Reply(q)], BothAnswered(p, q);
    moves := ReuseRun(p, q);
    BothOnWire(p, q);
    PlayAppended(start, moves, Decode(batch), s);
    ReuseTags(stream, a, b);
    assert Logged(Learn(map[], [p] + [q]), batch) == [(Reply(p), Some(b)), (Reply(q), None)];
    assert [] + Logged(Learn(map[], [p] + [q]), batch) == Logged(Learn(map[], [p] + [q]), batch);
    moves := moves + [Decode(batch)];
  }
}
