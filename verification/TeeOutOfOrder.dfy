/** Tee for out-of-order protocols: replies wait in two maps until their other half arrives. */
module TeeOutOfOrder {
  import opened Messages
  import opened TeeReplies

  type Replies = map<MessageId, Response>

  /** A pair that was sent on, and the choice in force then. */
  datatype Emission = Emission(id: MessageId, pick: Pick)

  /** `tee` and `chain` wait for their other half; `out`, `log` and `mismatches` are what was given out so far. */
  datatype Store = Store(
    tee: Replies, chain: Replies, out: seq<Response>, log: seq<Emission>, mismatches: seq<Mismatch>)

  const empty := Store(map[], map[], [], [], [])

  /** One reply coming in; a call of `new_responses` takes those of the tee first, then those of the chain. */
  datatype Arrival = Arrival(fromTee: bool, reply: Response, pick: Pick)

  function Emit(s: Store, id: MessageId, p: Pick, t: Response, c: Response): Store {
    s.(out := s.out + [Settled(p, t, c)], log := s.log + [Emission(id, p)],
       mismatches := s.mismatches + MismatchOf(p, t, c))
  }

  function TeeArrives(s: Store, id: MessageId, r: Response, p: Pick): Store {
    if id in s.chain then Emit(s.(chain := s.chain - {id}), id, p, r, s.chain[id])
    else s.(tee := s.tee[id := r])
  }

  function ChainArrives(s: Store, id: MessageId, r: Response, p: Pick): Store {
    if id in s.tee then Emit(s.(tee := s.tee - {id}), id, p, s.tee[id], r)
    else s.(chain := s.chain[id := r])
  }

  /** A push is sent on when it comes from the chain that is kept, and dropped otherwise. */
  function PushArrives(s: Store, a: Arrival): Store {
    s.(out := s.out + if a.fromTee == a.pick.keep.TeeChain? then [a.reply] else [])
  }

  function Arrive(s: Store, a: Arrival): Store {
    if a.reply.requestId.None? then PushArrives(s, a)
    else if a.fromTee then TeeArrives(s, a.reply.requestId.value, a.reply, a.pick)
    else ChainArrives(s, a.reply.requestId.value, a.reply, a.pick)
  }

  function ArriveAll(s: Store, arrivals: seq<Arrival>): Store {
    if arrivals == [] then s else Arrive(ArriveAll(s, arrivals[..|arrivals| - 1]), arrivals[|arrivals| - 1])
  }

  function ArrivalsOf(fromTee: bool, rs: seq<Response>, p: Pick): (arrivals: seq<Arrival>)
    ensures |arrivals| == |rs|
  {
    seq(|rs|, i requires 0 <= i < |rs| => Arrival(fromTee, rs[i], p))
  }

  class IncomingResponses {
    var teeByRequestId: Replies
    var chainByRequestId: Replies
    ghost var out: seq<Response>
    ghost var log: seq<Emission>
    ghost var mismatched: seq<Mismatch>

    ghost function View(): Store
      reads this
    {
      Store(teeByRequestId, chainByRequestId, out, log, mismatched)
    }

    constructor ()
      ensures View() == empty
    {
      teeByRequestId, chainByRequestId := map[], map[];
      out, log, mismatched := [], [], [];
    }

    ghost method Record(id: MessageId, p: Pick, t: Response, c: Response)
      modifies `out, `log, `mismatched
      ensures View() == Emit(old(View()), id, p, t, c)
    {
      out, log := out + [Settled(p, t, c)], log + [Emission(id, p)];
      mismatched := mismatched + MismatchOf(p, t, c);
    }

    /** The first loop of `new_responses`. */
    method TakeTee(responses: seq<Response>, p: Pick) returns (result: seq<Response>, mismatches: seq<Mismatch>)
      modifies this
      ensures View() == ArriveAll(old(View()), ArrivalsOf(true, responses, p))
      ensures out == old(out) + result && mismatched == old(mismatched) + mismatches
    {
      result, mismatches := [], [];
      ghost var all := ArrivalsOf(true, responses, p);
      for i := 0 to |responses|
        invariant View() == ArriveAll(old(View()), all[..i])
        invariant out == old(out) + result && mismatched == old(mismatched) + mismatches
      {
        ArriveNext(old(View()), all, i);
        var t := responses[i];
        if t.requestId.None? {
          if p.keep.TeeChain? {
            result, out := result + [t], out + [t];
          }
        } else if t.requestId.value in chainByRequestId {
          var id := t.requestId.value;
          var c := chainByRequestId[id];
          chainByRequestId := chainByRequestId - {id};
          Record(id, p, t, c);
          mismatches, result := mismatches + MismatchOf(p, t, c), result + [Settled(p, t, c)];
        } else {
          teeByRequestId := teeByRequestId[t.requestId.value := t];
        }
      }
      assert all[..|responses|] == all;
    }

    /** The second loop. */
    method TakeChain(responses: seq<Response>, p: Pick) returns (result: seq<Response>, mismatches: seq<Mismatch>)
      modifies this
      ensures View() == ArriveAll(old(View()), ArrivalsOf(false, responses, p))
      ensures out == old(out) + result && mismatched == old(mismatched) + mismatches
    {
      result, mismatches := [], [];
      ghost var all := ArrivalsOf(false, responses, p);
      for i := 0 to |responses|
        invariant View() == ArriveAll(old(View()), all[..i])
        invariant out == old(out) + result && mismatched == old(mismatched) + mismatches
      {
        ArriveNext(old(View()), all, i);
        var c := responses[i];
        if c.requestId.None? {
          if p.keep.RegularChain? {
            result, out := result + [c], out + [c];
          }
        } else if c.requestId.value in teeByRequestId {
          var id := c.requestId.value;
          var t := teeByRequestId[id];
          teeByRequestId := teeByRequestId - {id};
          Record(id, p, t, c);
          mismatches, result := mismatches + MismatchOf(p, t, c), result + [Settled(p, t, c)];
        } else {
          chainByRequestId := chainByRequestId[c.requestId.value := c];
        }
      }
      assert all[..|responses|] == all;
    }

    /** `new_responses`: a call is its arrivals, one after the other. */
    method NewResponses(teeResponses: seq<Response>, chainResponses: seq<Response>, p: Pick)
      returns (result: seq<Response>, mismatches: seq<Mismatch>)
      modifies this
      ensures View() == ArriveAll(old(View()), ArrivalsOf(true, teeResponses, p) + ArrivalsOf(false, chainResponses, p))
      ensures out == old(out) + result && mismatched == old(mismatched) + mismatches
    {
      ArriveConcat(View(), ArrivalsOf(true, teeResponses, p), ArrivalsOf(false, chainResponses, p));
      var r1, m1 := TakeTee(teeResponses, p);
      var r2, m2 := TakeChain(chainResponses, p);
      result, mismatches := r1 + r2, m1 + m2;
    }
  }

  lemma {:induction false} ArriveNext(s: Store, arrivals: seq<Arrival>, i: nat)
    requires i < |arrivals|
    ensures ArriveAll(s, arrivals[..i + 1]) == Arrive(ArriveAll(s, arrivals[..i]), arrivals[i])
  {
    assert arrivals[..i + 1][..i] == arrivals[..i];
  }

  lemma {:induction false} ArriveConcat(s: Store, a: seq<Arrival>, b: seq<Arrival>)
    ensures ArriveAll(s, a + b) == ArriveAll(ArriveAll(s, a), b)
  {
    if b == [] {
      assert a + b == a;
    } else {
      ArriveConcat(s, a, b[..|b| - 1]);
      assert (a + b)[..|a + b| - 1] == a + b[..|b| - 1];
    }
  }

  // ---- what each chain has answered -------------------------------------------------------------------

  /** The replies one chain has sent, by request. */
  function Seen(arrivals: seq<Arrival>, fromTee: bool): Replies {
    if arrivals == [] then map[]
    else
      var a := arrivals[|arrivals| - 1];
      var before := Seen(arrivals[..|arrivals| - 1], fromTee);
      if a.fromTee == fromTee && a.reply.requestId.Some? then before[a.reply.requestId.value := a.reply] else before
  }

  /** Neither chain answers a request twice. */
  predicate OnceEach(arrivals: seq<Arrival>) {
    arrivals != [] ==>
    && OnceEach(arrivals[..|arrivals| - 1])
    && var a := arrivals[|arrivals| - 1];
       a.reply.requestId.Some? ==> a.reply.requestId.value !in Seen(arrivals[..|arrivals| - 1], a.fromTee)
  }

  /** The maps hold exactly the requests that one chain has answered and the other has not. */
  predicate Differences(s: Store, t: Replies, c: Replies) {
    s.tee == t - c.Keys && s.chain == c - t.Keys
  }

  function LogIds(log: seq<Emission>): set<MessageId> {
    if log == [] then {} else LogIds(log[..|log| - 1]) + {log[|log| - 1].id}
  }

  /** No request was sent on twice. */
  predicate NoRepeats(log: seq<Emission>) {
    log != [] ==> NoRepeats(log[..|log| - 1]) && log[|log| - 1].id !in LogIds(log[..|log| - 1])
  }

  /** `ids` are the requests both chains have answered. */
  ghost predicate InBoth(ids: set<MessageId>, t: Replies, c: Replies) {
    forall id :: id in ids <==> id in t && id in c
  }

  /** Each request that both chains have answered was sent on exactly once, settled from its two replies. */
  ghost predicate SentOnce(s: Store, t: Replies, c: Replies) {
    NoRepeats(s.log) && InBoth(LogIds(s.log), t, c) && Entries(s.log, SolicitedOf(s.out), t, c)
  }

  ghost predicate Entries(log: seq<Emission>, sent: seq<Response>, t: Replies, c: Replies) {
    |sent| == |log| && forall i :: 0 <= i < |log| ==> Entry(log[i], sent[i], t, c)
  }

  ghost predicate Entry(e: Emission, sent: Response, t: Replies, c: Replies) {
    e.id in t && e.id in c && sent == Settled(e.pick, t[e.id], c[e.id])
  }

  ghost predicate Grown(before: Replies, after: Replies) {
    forall id :: id in before ==> id in after && after[id] == before[id]
  }

  /** Replies are filed under their own ids. */
  predicate OwnIds(rs: Replies) {
    forall id :: id in rs ==> rs[id].requestId == Some(id)
  }

  lemma {:induction false} SeenOwnIds(arrivals: seq<Arrival>, fromTee: bool)
    ensures OwnIds(Seen(arrivals, fromTee))
  {
    if arrivals != [] {
      SeenOwnIds(arrivals[..|arrivals| - 1], fromTee);
    }
  }

  lemma {:induction false} TeeKeepsDifferences(s: Store, t: Replies, c: Replies, id: MessageId, r: Response, p: Pick)
    requires Differences(s, t, c) && id !in t
    ensures Differences(TeeArrives(s, id, r, p), t[id := r], c)
    ensures id in s.chain <==> id in c
    ensures id in c ==> s.chain[id] == c[id]
  {
  }

  lemma {:induction false} ChainKeepsDifferences(s: Store, t: Replies, c: Replies, id: MessageId, r: Response, p: Pick)
    requires Differences(s, t, c) && id !in c
    ensures Differences(ChainArrives(s, id, r, p), t, c[id := r])
    ensures id in s.tee <==> id in t
    ensures id in t ==> s.tee[id] == t[id]
  {
  }

  lemma {:induction false} SolicitedAppended(rs: seq<Response>, r: Response)
    ensures SolicitedOf(rs + [r]) == if r.requestId.Some? then SolicitedOf(rs) + [r] else SolicitedOf(rs)
  {
    assert (rs + [r])[..|rs|] == rs;
  }

  lemma {:induction false} EntriesGrow(log: seq<Emission>, sent: seq<Response>, t0: Replies, c0: Replies, t: Replies,
                                       c: Replies)
    requires Entries(log, sent, t0, c0) && Grown(t0, t) && Grown(c0, c)
    ensures Entries(log, sent, t, c)
  {
    forall i | 0 <= i < |log| ensures Entry(log[i], sent[i], t, c) {
      assert Entry(log[i], sent[i], t0, c0);
    }
  }

  lemma {:induction false} LogAppended(log: seq<Emission>, e: Emission)
    ensures LogIds(log + [e]) == LogIds(log) + {e.id}
    ensures NoRepeats(log + [e]) <==> NoRepeats(log) && e.id !in LogIds(log)
  {
    assert (log + [e])[..|log|] == log;
  }

  /** A pair completed: `t` and `c` are the replies after the arrival. */
  lemma {:induction false} EmitSentOnce(s: Store, t0: Replies, c0: Replies, t: Replies, c: Replies, id: MessageId,
                                        p: Pick)
    requires SentOnce(s, t0, c0) && id in t && id in c && Grown(t0, t) && Grown(c0, c)
    requires id !in LogIds(s.log) && InBoth(LogIds(s.log) + {id}, t, c)
    requires t[id].requestId == Some(id) && c[id].requestId == Some(id)
    ensures SentOnce(Emit(s, id, p, t[id], c[id]), t, c)
  {
    LogAppended(s.log, Emission(id, p));
    EmittedEntry(s.log, s.out, t0, c0, t, c, id, p);
  }

  lemma {:induction false} EntriesAppended(log: seq<Emission>, sent: seq<Response>, t: Replies, c: Replies,
                                           e: Emission, r: Response)
    requires Entries(log, sent, t, c) && Entry(e, r, t, c)
    ensures Entries(log + [e], sent + [r], t, c)
  {
  }

  lemma {:induction false} EmittedEntry(log: seq<Emission>, out: seq<Response>, t0: Replies, c0: Replies,
                                        t: Replies, c: Replies, id: MessageId, p: Pick)
    requires Entries(log, SolicitedOf(out), t0, c0) && Grown(t0, t) && Grown(c0, c) && id in t && id in c
    requires t[id].requestId == Some(id) && c[id].requestId == Some(id)
    ensures Entries(log + [Emission(id, p)], SolicitedOf(out + [Settled(p, t[id], c[id])]), t, c)
  {
    EntriesGrow(log, SolicitedOf(out), t0, c0, t, c);
    SolicitedAppended(out, Settled(p, t[id], c[id]));
    EntriesAppended(log, SolicitedOf(out), t, c, Emission(id, p), Settled(p, t[id], c[id]));
  }

  /** Half a pair stored: nothing new to send on. */
  lemma {:induction false} StoreSentOnce(s: Store, s': Store, t0: Replies, c0: Replies, t: Replies, c: Replies)
    requires SentOnce(s, t0, c0) && s'.out == s.out && s'.log == s.log && Grown(t0, t) && Grown(c0, c)
    requires InBoth(LogIds(s.log), t, c)
    ensures SentOnce(s', t, c)
  {
    EntriesGrow(s.log, SolicitedOf(s.out), t0, c0, t, c);
  }

  lemma {:induction false} PushSentOnce(s: Store, a: Arrival, t: Replies, c: Replies)
    requires SentOnce(s, t, c) && a.reply.requestId.None?
    ensures SentOnce(PushArrives(s, a), t, c)
  {
    SolicitedAppended(s.out, a.reply);
    assert s.out + [] == s.out;
  }

  lemma {:induction false} TeeSentOnce(s: Store, t: Replies, c: Replies, a: Arrival)
    requires SentOnce(s, t, c) && Differences(s, t, c) && OwnIds(c)
    requires a.fromTee && a.reply.requestId.Some? && a.reply.requestId.value !in t
    ensures SentOnce(Arrive(s, a), t[a.reply.requestId.value := a.reply], c)
  {
    var id := a.reply.requestId.value;
    var t' := t[id := a.reply];
    TeeKeepsDifferences(s, t, c, id, a.reply, a.pick);
    if id in c {
      EmitSentOnce(s.(chain := s.chain - {id}), t, c, t', c, id, a.pick);
    } else {
      StoreSentOnce(s, s.(tee := s.tee[id := a.reply]), t, c, t', c);
    }
  }

  lemma {:induction false} ChainSentOnce(s: Store, t: Replies, c: Replies, a: Arrival)
    requires SentOnce(s, t, c) && Differences(s, t, c) && OwnIds(t)
    requires !a.fromTee && a.reply.requestId.Some? && a.reply.requestId.value !in c
    ensures SentOnce(Arrive(s, a), t, c[a.reply.requestId.value := a.reply])
  {
    var id := a.reply.requestId.value;
    var c' := c[id := a.reply];
    ChainKeepsDifferences(s, t, c, id, a.reply, a.pick);
    if id in t {
      EmitSentOnce(s.(tee := s.tee - {id}), t, c, t, c', id, a.pick);
    } else {
      StoreSentOnce(s, s.(chain := s.chain[id := a.reply]), t, c, t, c');
    }
  }

  /**
    * After every arrival, however the replies were batched: the two maps are disjoint and equal the two
    * differences of what the chains have answered, and what both have answered was sent on exactly once.
    */
  lemma {:induction false} PairedOnSecondHalf(arrivals: seq<Arrival>)
    requires OnceEach(arrivals)
    ensures var s, t, c := ArriveAll(empty, arrivals), Seen(arrivals, true), Seen(arrivals, false);
            Differences(s, t, c) && SentOnce(s, t, c) && s.tee.Keys !! s.chain.Keys
  {
    if arrivals != [] {
      var init, a := arrivals[..|arrivals| - 1], arrivals[|arrivals| - 1];
      PairedOnSecondHalf(init);
      SeenOwnIds(init, true);
      SeenOwnIds(init, false);
      var s, t, c := ArriveAll(empty, init), Seen(init, true), Seen(init, false);
      if a.reply.requestId.None? {
        PushSentOnce(s, a, t, c);
      } else if a.fromTee {
        TeeKeepsDifferences(s, t, c, a.reply.requestId.value, a.reply, a.pick);
        TeeSentOnce(s, t, c, a);
      } else {
        ChainKeepsDifferences(s, t, c, a.reply.requestId.value, a.reply, a.pick);
        ChainSentOnce(s, t, c, a);
      }
    }
  }

  // ---- which replies, which handler calls, which pushes ------------------------------------------------

  /** The pairs in the order in which they were completed, each with the choice in force then. */
  function Completions(arrivals: seq<Arrival>): seq<Emission> {
    if arrivals == [] then []
    else
      var init, a := arrivals[..|arrivals| - 1], arrivals[|arrivals| - 1];
      if a.reply.requestId.Some? && a.reply.requestId.value in Seen(init, !a.fromTee)
      then Completions(init) + [Emission(a.reply.requestId.value, a.pick)] else Completions(init)
  }

  /** The calls the handler should have had: the selected reply first, for each pair whose contents differ. */
  function Unequal(log: seq<Emission>, t: Replies, c: Replies): seq<Mismatch> {
    if log == [] then []
    else
      var before, e := Unequal(log[..|log| - 1], t, c), log[|log| - 1];
      if e.id !in t || e.id !in c || t[e.id].body == c[e.id].body then before
      else if e.pick.keep.TeeChain? then before + [Mismatch(t[e.id], c[e.id])]
      else before + [Mismatch(c[e.id], t[e.id])]
  }

  /** The pushes of the selected chain. */
  function SelectedPushes(arrivals: seq<Arrival>): seq<Response> {
    if arrivals == [] then []
    else
      var before, a := SelectedPushes(arrivals[..|arrivals| - 1]), arrivals[|arrivals| - 1];
      if a.reply.requestId.None? && a.pick.keep == (if a.fromTee then TeeChain else RegularChain)
      then before + [a.reply] else before
  }

  lemma {:induction false} UnequalGrows(log: seq<Emission>, t0: Replies, c0: Replies, t: Replies, c: Replies)
    requires Grown(t0, t) && Grown(c0, c) && forall i :: 0 <= i < |log| ==> log[i].id in t0 && log[i].id in c0
    ensures Unequal(log, t, c) == Unequal(log, t0, c0)
  {
    if log != [] {
      UnequalGrows(log[..|log| - 1], t0, c0, t, c);
    }
  }

  lemma {:induction false} UnequalAppended(log: seq<Emission>, e: Emission, t: Replies, c: Replies)
    requires e.id in t && e.id in c
    ensures Unequal(log + [e], t, c) == Unequal(log, t, c) + MismatchOf(e.pick, t[e.id], c[e.id])
  {
    assert (log + [e])[..|log|] == log;
  }

  lemma {:induction false} PushAppended(rs: seq<Response>, r: Response)
    ensures PushesOf(rs + [r]) == if r.requestId.None? then PushesOf(rs) + [r] else PushesOf(rs)
  {
    assert (rs + [r])[..|rs|] == rs;
  }

  /** The books of a store against what it should have done. */
  ghost predicate DoneRightly(s: Store, t: Replies, c: Replies, log: seq<Emission>, pushes: seq<Response>) {
    s.log == log && s.mismatches == Unequal(log, t, c) && PushesOf(s.out) == pushes
  }

  lemma {:induction false} EmitDoneRightly(s: Store, t0: Replies, c0: Replies, t: Replies, c: Replies, id: MessageId,
                                           p: Pick, pushes: seq<Response>)
    requires DoneRightly(s, t0, c0, s.log, pushes) && Grown(t0, t) && Grown(c0, c) && id in t && id in c
    requires forall i :: 0 <= i < |s.log| ==> s.log[i].id in t0 && s.log[i].id in c0
    requires t[id].requestId == Some(id) && c[id].requestId == Some(id)
    ensures DoneRightly(Emit(s, id, p, t[id], c[id]), t, c, s.log + [Emission(id, p)], pushes)
  {
    UnequalGrows(s.log, t0, c0, t, c);
    UnequalAppended(s.log, Emission(id, p), t, c);
    PushAppended(s.out, Settled(p, t[id], c[id]));
  }

  lemma {:induction false} KeptDoneRightly(s: Store, s': Store, t0: Replies, c0: Replies, t: Replies, c: Replies,
                                           pushes: seq<Response>)
    requires DoneRightly(s, t0, c0, s.log, pushes) && Grown(t0, t) && Grown(c0, c)
    requires s'.log == s.log && s'.mismatches == s.mismatches && s'.out == s.out
    requires forall i :: 0 <= i < |s.log| ==> s.log[i].id in t0 && s.log[i].id in c0
    ensures DoneRightly(s', t, c, s.log, pushes)
  {
    UnequalGrows(s.log, t0, c0, t, c);
  }

  lemma {:induction false} TeeDoneRightly(s: Store, t: Replies, c: Replies, a: Arrival, pushes: seq<Response>)
    requires SentOnce(s, t, c) && Differences(s, t, c) && OwnIds(c) && DoneRightly(s, t, c, s.log, pushes)
    requires a.fromTee && a.reply.requestId.Some? && a.reply.requestId.value !in t
    ensures var id := a.reply.requestId.value;
            DoneRightly(Arrive(s, a), t[id := a.reply], c, if id in c then s.log + [Emission(id, a.pick)] else s.log,
                        pushes)
  {
    var id := a.reply.requestId.value;
    var t' := t[id := a.reply];
    TeeKeepsDifferences(s, t, c, id, a.reply, a.pick);
    LoggedInBoth(s, t, c);
    if id in c {
      EmitDoneRightly(s.(chain := s.chain - {id}), t, c, t', c, id, a.pick, pushes);
    } else {
      KeptDoneRightly(s, s.(tee := s.tee[id := a.reply]), t, c, t', c, pushes);
    }
  }

  lemma {:induction false} ChainDoneRightly(s: Store, t: Replies, c: Replies, a: Arrival, pushes: seq<Response>)
    requires SentOnce(s, t, c) && Differences(s, t, c) && OwnIds(t) && DoneRightly(s, t, c, s.log, pushes)
    requires !a.fromTee && a.reply.requestId.Some? && a.reply.requestId.value !in c
    ensures var id := a.reply.requestId.value;
            DoneRightly(Arrive(s, a), t, c[id := a.reply], if id in t then s.log + [Emission(id, a.pick)] else s.log,
                        pushes)
  {
    var id := a.reply.requestId.value;
    var c' := c[id := a.reply];
    ChainKeepsDifferences(s, t, c, id, a.reply, a.pick);
    LoggedInBoth(s, t, c);
    if id in t {
      EmitDoneRightly(s.(tee := s.tee - {id}), t, c, t, c', id, a.pick, pushes);
    } else {
      KeptDoneRightly(s, s.(chain := s.chain[id := a.reply]), t, c, t, c', pushes);
    }
  }

  lemma {:induction false} LoggedInBoth(s: Store, t: Replies, c: Replies)
    requires SentOnce(s, t, c)
    ensures forall i :: 0 <= i < |s.log| ==> s.log[i].id in t && s.log[i].id in c
  {
    forall i | 0 <= i < |s.log| ensures s.log[i].id in t && s.log[i].id in c {
      assert Entry(s.log[i], SolicitedOf(s.out)[i], t, c);
    }
  }

  lemma {:induction false} PushDoneRightly(s: Store, t: Replies, c: Replies, a: Arrival, pushes: seq<Response>)
    requires DoneRightly(s, t, c, s.log, pushes) && a.reply.requestId.None?
    ensures DoneRightly(Arrive(s, a), t, c, s.log,
                        if a.pick.keep == (if a.fromTee then TeeChain else RegularChain) then pushes + [a.reply]
                        else pushes)
  {
    PushAppended(s.out, a.reply);
    assert s.out + [] == s.out;
  }

  lemma {:induction false} RunDoneRightly(arrivals: seq<Arrival>)
    requires OnceEach(arrivals)
    ensures DoneRightly(ArriveAll(empty, arrivals), Seen(arrivals, true), Seen(arrivals, false),
                        Completions(arrivals), SelectedPushes(arrivals))
  {
    if arrivals != [] {
      var init, a := arrivals[..|arrivals| - 1], arrivals[|arrivals| - 1];
      RunDoneRightly(init);
      PairedOnSecondHalf(init);
      SeenOwnIds(init, true);
      SeenOwnIds(init, false);
      var s, t, c := ArriveAll(empty, init), Seen(init, true), Seen(init, false);
      if a.reply.requestId.None? {
        PushDoneRightly(s, t, c, a, SelectedPushes(init));
      } else if a.fromTee {
        TeeDoneRightly(s, t, c, a, SelectedPushes(init));
      } else {
        ChainDoneRightly(s, t, c, a, SelectedPushes(init));
      }
    }
  }

  /**
    * After every arrival: pairs went out in the order they were completed, each as the reply of the chain selected
    * then; the handler was called on the unequal ones, selected reply first; and only the selected chain's pushes went
    * out.
    */
  lemma {:induction false} SelectedIsSent(arrivals: seq<Arrival>)
    requires OnceEach(arrivals)
    ensures var s, t, c := ArriveAll(empty, arrivals), Seen(arrivals, true), Seen(arrivals, false);
            && s.log == Completions(arrivals) && |SolicitedOf(s.out)| == |s.log|
            && (forall i :: 0 <= i < |s.log| ==>
                  && s.log[i].id in t && s.log[i].id in c
                  && RightlySent(s.log[i].pick, t[s.log[i].id], c[s.log[i].id], SolicitedOf(s.out)[i]))
            && s.mismatches == Unequal(s.log, t, c)
            && PushesOf(s.out) == SelectedPushes(arrivals)
  {
    var s, t, c := ArriveAll(empty, arrivals), Seen(arrivals, true), Seen(arrivals, false);
    RunDoneRightly(arrivals);
    PairedOnSecondHalf(arrivals);
    forall i | 0 <= i < |s.log|
      ensures s.log[i].id in t && s.log[i].id in c
      ensures RightlySent(s.log[i].pick, t[s.log[i].id], c[s.log[i].id], SolicitedOf(s.out)[i])
    {
      assert Entry(s.log[i], SolicitedOf(s.out)[i], t, c);
      SettledRightly(s.log[i].pick, t[s.log[i].id], c[s.log[i].id]);
    }
  }
}
