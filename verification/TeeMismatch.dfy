/** The requests Tee keeps for its mismatch chain, next to the maps of the out-of-order form. */
module TeeMismatch {
  import opened Messages
  import opened TeeReplies
  import opened TeeOutOfOrder

  /** The reply is the second half of its pair. */
  predicate Completes(s: Store, a: Arrival) {
    a.reply.requestId.Some? && a.reply.requestId.value in (if a.fromTee then s.chain else s.tee)
  }

  /** The request whose pair turned out a mismatch, if any. */
  function Removed(s: Store, a: Arrival): set<MessageId> {
    var before, after := s.mismatches, Arrive(s, a).mismatches;
    if |after| > |before| then MismatchId(after[|before|]) else {}
  }

  /** An arrival that completes nothing mismatches nothing. */
  lemma {:induction false} StoredNotMismatched(s: Store, a: Arrival)
    requires !Completes(s, a)
    ensures Arrive(s, a).mismatches == s.mismatches && Arrive(s, a).log == s.log && Removed(s, a) == {}
  {
  }

  /** One that does adds its request to the log, and at most that request to the mismatches. */
  lemma {:induction false} CompletedMismatch(s: Store, a: Arrival)
    requires Completes(s, a) && OwnIds(s.tee) && OwnIds(s.chain)
    ensures var id, r := a.reply.requestId.value, Arrive(s, a);
            && LogIds(r.log) == LogIds(s.log) + {id}
            && Removed(s, a) <= {id} && MismatchIds(r.mismatches) == MismatchIds(s.mismatches) + Removed(s, a)
  {
    var id, r := a.reply.requestId.value, Arrive(s, a);
    LogAppended(s.log, Emission(id, a.pick));
    if r.mismatches != s.mismatches {
      var m := r.mismatches[|s.mismatches|];
      assert r.mismatches == s.mismatches + [m] && m.kept.requestId == Some(id);
      MismatchAppended(s.mismatches, m);
    } else {
      assert Removed(s, a) == {};
    }
  }

  // ---- the books -----------------------------------------------------------------------------------------

  datatype Happening = Asked(id: MessageId) | Answered(arrival: Arrival)

  /** `requests` are kept for the mismatch chain; `missed` once one to be removed was not there. */
  datatype Books = Books(store: Store, requests: set<MessageId>, missed: bool)

  function Happen(b: Books, h: Happening): Books {
    match h
    case Asked(id) => b.(requests := b.requests + {id})
    case Answered(a) =>
      Books(Arrive(b.store, a), b.requests - Removed(b.store, a), b.missed || !(Removed(b.store, a) <= b.requests))
  }

  function Play(hs: seq<Happening>): Books {
    if hs == [] then Books(empty, {}, false) else Happen(Play(hs[..|hs| - 1]), hs[|hs| - 1])
  }

  function ArrivalsIn(hs: seq<Happening>): seq<Arrival> {
    if hs == [] then []
    else if hs[|hs| - 1].Asked? then ArrivalsIn(hs[..|hs| - 1])
    else ArrivalsIn(hs[..|hs| - 1]) + [hs[|hs| - 1].arrival]
  }

  function AskedIn(hs: seq<Happening>): set<MessageId> {
    if hs == [] then {}
    else if hs[|hs| - 1].Asked? then AskedIn(hs[..|hs| - 1]) + {hs[|hs| - 1].id}
    else AskedIn(hs[..|hs| - 1])
  }

  /** Requests have fresh ids, and replies are to requests that were made. */
  predicate Sensible(asked: set<MessageId>, h: Happening) {
    match h
    case Asked(id) => id !in asked
    case Answered(a) => a.reply.requestId.Some? ==> a.reply.requestId.value in asked
  }

  predicate Legal(hs: seq<Happening>) {
    hs != [] ==> Legal(hs[..|hs| - 1]) && Sensible(AskedIn(hs[..|hs| - 1]), hs[|hs| - 1])
  }

  /** Nothing was sent on that was not asked, and no removal missed. */
  ghost predicate BooksRight(b: Books, asked: set<MessageId>) {
    && MismatchIds(b.store.mismatches) <= LogIds(b.store.log) <= asked
    && !b.missed && b.requests == asked - MismatchIds(b.store.mismatches)
  }

  lemma {:induction false} AskedKeepsBooks(b: Books, asked: set<MessageId>, id: MessageId)
    requires BooksRight(b, asked) && id !in asked
    ensures BooksRight(Happen(b, Asked(id)), asked + {id})
  {
  }

  lemma {:induction false} AnsweredKeepsBooks(b: Books, asked: set<MessageId>, a: Arrival)
    requires BooksRight(b, asked) && Sensible(asked, Answered(a))
    requires OwnIds(b.store.tee) && OwnIds(b.store.chain)
    requires Completes(b.store, a) ==> a.reply.requestId.value !in LogIds(b.store.log)
    ensures BooksRight(Happen(b, Answered(a)), asked)
  {
    if Completes(b.store, a) {
      CompletedMismatch(b.store, a);
    } else {
      StoredNotMismatched(b.store, a);
    }
  }

  /** What completes a pair was not sent on before. */
  lemma {:induction false} CompletedOnce(arrivals: seq<Arrival>, a: Arrival)
    requires OnceEach(arrivals + [a])
    ensures var s := ArriveAll(empty, arrivals);
            && OwnIds(s.tee) && OwnIds(s.chain)
            && (Completes(s, a) ==> a.reply.requestId.value !in LogIds(s.log))
  {
    assert (arrivals + [a])[..|arrivals|] == arrivals;
    PairedOnSecondHalf(arrivals);
    SeenOwnIds(arrivals, true);
    SeenOwnIds(arrivals, false);
  }

  /**
    * The removal of a mismatched request never misses: over every run the requests kept are those asked
    * minus those mismatched. A request whose replies match is therefore kept for ever.
    */
  lemma {:induction false} RemovalNeverMisses(hs: seq<Happening>)
    requires Legal(hs) && OnceEach(ArrivalsIn(hs))
    ensures Play(hs).store == ArriveAll(empty, ArrivalsIn(hs))
    ensures BooksRight(Play(hs), AskedIn(hs))
  {
    if hs != [] {
      var init, h := hs[..|hs| - 1], hs[|hs| - 1];
      match h
      case Asked(id) =>
        RemovalNeverMisses(init);
        AskedKeepsBooks(Play(init), AskedIn(init), id);
      case Answered(a) =>
        assert ArrivalsIn(hs)[..|ArrivalsIn(init)|] == ArrivalsIn(init);
        RemovalNeverMisses(init);
        CompletedOnce(ArrivalsIn(init), a);
        AnsweredKeepsBooks(Play(init), AskedIn(init), a);
    }
  }
}
