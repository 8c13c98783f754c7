/** `DummyResponseInserter`: merges synthetic replies into the reply stream of one connection. */
module DummyInserter {
  import opened Messages

  datatype DummyRequest = DummyRequest(requestId: MessageId, requestIndex: nat)

  /** An unanswered request; the server will answer a real one, Shotover a synthetic one. */
  datatype Slot = Real(id: MessageId) | Synthetic(id: MessageId)

  /** A dummy and the number of server replies ahead of it. */
  datatype Mark = Mark(id: MessageId, at: nat)

  function SlotOf(r: Request): Slot {
    if r.responseIsDummy then Synthetic(r.id) else Real(r.id)
  }

  function SlotsOf(rs: seq<Request>): (s: seq<Slot>)
    ensures |s| == |rs|
  {
    seq(|rs|, i requires 0 <= i < |rs| => SlotOf(rs[i]))
  }

  lemma {:induction false} SlotsOfConcat(a: seq<Request>, b: seq<Request>)
    ensures SlotsOf(a + b) == SlotsOf(a) + SlotsOf(b)
  {
  }

  /** The slots `p` with those of `rs` behind them, one by one. */
  function Extended(p: seq<Slot>, rs: seq<Request>): seq<Slot> {
    if rs == [] then p else Extended(p, rs[..|rs| - 1]) + [SlotOf(rs[|rs| - 1])]
  }

  lemma {:induction false} ExtendedNext(p: seq<Slot>, rs: seq<Request>, i: nat)
    requires i < |rs|
    ensures Extended(p, rs[..i + 1]) == Extended(p, rs[..i]) + [SlotOf(rs[i])]
  {
    assert rs[..i + 1][..i] == rs[..i];
  }

  lemma {:induction false} ExtendedBySlots(p: seq<Slot>, rs: seq<Request>)
    ensures Extended(p, rs) == p + SlotsOf(rs)
  {
    if rs != [] {
      ExtendedBySlots(p, rs[..|rs| - 1]);
      assert SlotsOf(rs) == SlotsOf(rs[..|rs| - 1]) + [SlotOf(rs[|rs| - 1])];
    }
  }

  /** Unanswered requests the server will answer. */
  function Reals(p: seq<Slot>): nat {
    if p == [] then 0
    else if p[|p| - 1].Real? then Reals(p[..|p| - 1]) + 1
    else Reals(p[..|p| - 1])
  }

  /** The synthetic slots with their positions: what the inserter is meant to store. */
  function Positions(p: seq<Slot>): (d: seq<DummyRequest>)
    ensures |d| + Reals(p) == |p|
  {
    if p == [] then []
    else if p[|p| - 1].Real? then Positions(p[..|p| - 1])
    else Positions(p[..|p| - 1]) + [DummyRequest(p[|p| - 1].id, |p| - 1)]
  }

  /** Where the dummies belong: right behind the replies to the real requests ahead of them. */
  function Ranks(p: seq<Slot>): (ms: seq<Mark>)
    ensures |ms| + Reals(p) == |p|
  {
    if p == [] then []
    else if p[|p| - 1].Real? then Ranks(p[..|p| - 1])
    else Ranks(p[..|p| - 1]) + [Mark(p[|p| - 1].id, Reals(p[..|p| - 1]))]
  }

  /** The longest prefix of the requests that `n` server replies are enough to answer. */
  function Ready(p: seq<Slot>, n: nat): seq<Slot> {
    if Reals(p) <= n then p else Ready(p[..|p| - 1], n)
  }

  /** The requests behind `Ready`. */
  function Waiting(p: seq<Slot>, n: nat): seq<Slot> {
    if Reals(p) <= n then [] else Waiting(p[..|p| - 1], n) + [p[|p| - 1]]
  }

  /** The replies to the slots `p`: a dummy for each synthetic slot, the next of `rs` for each real one. */
  function Answers(p: seq<Slot>, rs: seq<Response>): (out: seq<Response>)
    requires Reals(p) == |rs|
    ensures |out| == |p|
  {
    if p == [] then []
    else if p[|p| - 1].Real? then Answers(p[..|p| - 1], rs[..|rs| - 1]) + [rs[|rs| - 1]]
    else Answers(p[..|p| - 1], rs) + [DummyReply(p[|p| - 1].id)]
  }

  // ---- facts about slots ---------------------------------------------------------------

  lemma {:induction false} RealsConcat(a: seq<Slot>, b: seq<Slot>)
    ensures Reals(a + b) == Reals(a) + Reals(b)
  {
    if b == [] {
      assert a + b == a;
    } else {
      RealsConcat(a, b[..|b| - 1]);
      assert (a + b)[..|a + b| - 1] == a + b[..|b| - 1];
    }
  }

  /** A dummy's position is its rank among the dummies plus the number of real requests ahead of it. */
  lemma {:induction false} PositionsAreRanks(p: seq<Slot>)
    ensures forall k :: 0 <= k < |Ranks(p)| ==>
      Positions(p)[k] == DummyRequest(Ranks(p)[k].id, Ranks(p)[k].at + k)
  {
    if p != [] {
      PositionsAreRanks(p[..|p| - 1]);
    }
  }

  lemma {:induction false} RanksOrdered(p: seq<Slot>)
    ensures Ordered(Ranks(p), Reals(p))
  {
    if p != [] {
      RanksOrdered(p[..|p| - 1]);
    }
  }

  function Raise(ms: seq<Mark>, r: nat): (raised: seq<Mark>)
    ensures |raised| == |ms|
  {
    seq(|ms|, k requires 0 <= k < |ms| => Mark(ms[k].id, ms[k].at + r))
  }

  lemma {:induction false} RaiseAppend(front: seq<Mark>, ms: seq<Mark>, m: Mark, r: nat)
    ensures front + Raise(ms + [m], r) == front + Raise(ms, r) + [Mark(m.id, m.at + r)]
  {
  }

  lemma {:induction false} RankAppended(p: seq<Slot>, slot: Slot)
    ensures Ranks(p + [slot]) == if slot.Real? then Ranks(p) else Ranks(p) + [Mark(slot.id, Reals(p))]
  {
    assert (p + [slot])[..|p|] == p;
  }

  lemma {:induction false} SlotAppended(p: seq<Slot>, slot: Slot)
    ensures Positions(p + [slot])
         == if slot.Real? then Positions(p) else Positions(p) + [DummyRequest(slot.id, |p|)]
  {
    assert (p + [slot])[..|p|] == p;
  }

  /** Ranks behind a prefix `a` count the real requests of `a` too. */
  lemma {:induction false} RanksConcat(a: seq<Slot>, b: seq<Slot>)
    ensures Ranks(a + b) == Ranks(a) + Raise(Ranks(b), Reals(a))
  {
    if b == [] {
      assert a + b == a && Ranks(a) + [] == Ranks(a);
    } else {
      var c, slot := b[..|b| - 1], b[|b| - 1];
      RanksConcat(a, c);
      RealsConcat(a, c);
      RanksConcatOne(a + c, Ranks(a), Reals(a), c, slot);
      assert c + [slot] == b;
      Regrouped(a, c, [slot]);
    }
  }

  lemma {:induction false} RanksConcatOne(whole: seq<Slot>, front: seq<Mark>, r: nat, c: seq<Slot>, slot: Slot)
    requires Ranks(whole) == front + Raise(Ranks(c), r) && Reals(whole) == r + Reals(c)
    ensures Ranks(whole + [slot]) == front + Raise(Ranks(c + [slot]), r)
  {
    RankAppended(whole, slot);
    RankAppended(c, slot);
    RaisedLast(front, Ranks(c), Mark(slot.id, Reals(c)), r, Ranks(whole));
  }

  lemma {:induction false} RaisedLast(front: seq<Mark>, ms: seq<Mark>, m: Mark, r: nat, whole: seq<Mark>)
    requires whole == front + Raise(ms, r)
    ensures whole + [Mark(m.id, m.at + r)] == front + Raise(ms + [m], r)
  {
    RaiseAppend(front, ms, m, r);
  }

  lemma {:induction false} ReadySplits(p: seq<Slot>, n: nat)
    requires n <= Reals(p)
    ensures Ready(p, n) + Waiting(p, n) == p
    ensures Reals(Ready(p, n)) == n
    ensures Waiting(p, n) != [] ==> Waiting(p, n)[0].Real?
  {
    if Reals(p) > n {
      ReadySplits(p[..|p| - 1], n);
    }
  }

  lemma {:induction false} ReadyUnique(a: seq<Slot>, b: seq<Slot>)
    requires b == [] || b[0].Real?
    ensures Ready(a + b, Reals(a)) == a && Waiting(a + b, Reals(a)) == b
  {
    if b == [] {
      assert a + b == a;
    } else {
      ReadyUnique(a, b[..|b| - 1]);
      assert (a + b)[..|a + b| - 1] == a + b[..|b| - 1];
      RealsConcat(a, b);
      RealsOfFirst(b);
    }
  }

  lemma {:induction false} RealsOfFirst(b: seq<Slot>)
    requires b != [] && b[0].Real?
    ensures Reals(b) > 0
  {
    if |b| > 1 {
      RealsOfFirst(b[..|b| - 1]);
    }
  }

  /** If the first slot is real, every dummy has a real request ahead of it. */
  lemma {:induction false} RanksBehindReal(b: seq<Slot>)
    requires b != [] ==> b[0].Real?
    ensures forall k :: 0 <= k < |Ranks(b)| ==> Ranks(b)[k].at > 0
  {
    if b != [] {
      RanksBehindReal(b[..|b| - 1]);
      if |b| > 1 {
        RealsOfFirst(b[..|b| - 1]);
      }
    }
  }

  // ---- the index fix-up for replies that answer no request --------------------------------

  /** Where a dummy of rank `k` stored at `p` points after the fix-up loop has passed over `batch`. */
  function Shifted(p: nat, k: nat, batch: seq<Response>): (q: nat)
    ensures p <= q <= p + |batch| - Solicited(batch)
  {
    if batch == [] then p
    else
      var q := Shifted(p, k, batch[..|batch| - 1]);
      if batch[|batch| - 1].requestId.None? && |batch| - 1 <= q + k then q + 1 else q
  }

  /** How many replies of `batch` end up ahead of the dummy of rank `k` with `r` real requests ahead. */
  function Landing(r: nat, k: nat, batch: seq<Response>): nat {
    Shifted(r + k, k, batch) - k
  }

  function FixUp(d: seq<DummyRequest>, batch: seq<Response>): (f: seq<DummyRequest>)
    ensures |f| == |d|
  {
    seq(|d|, k requires 0 <= k < |d| => d[k].(requestIndex := Shifted(d[k].requestIndex, k, batch)))
  }

  lemma {:induction false} LandingMonotone(r1: nat, k1: nat, r2: nat, k2: nat, batch: seq<Response>)
    requires r1 <= r2 && k1 <= k2
    ensures Landing(r1, k1, batch) <= Landing(r2, k2, batch)
  {
    if batch != [] {
      LandingMonotone(r1, k1, r2, k2, batch[..|batch| - 1]);
    }
  }

  /** A dummy with more real slots ahead of it than the batch has replies skips every push. */
  lemma {:induction false} LandingPastBatch(r: nat, k: nat, batch: seq<Response>)
    requires r > Solicited(batch)
    ensures Landing(r, k, batch) == r + |batch| - Solicited(batch)
  {
    if batch != [] {
      LandingPastBatch(r, k, batch[..|batch| - 1]);
    }
  }

  // ---- inserting the dummies -----------------------------------------------------------

  predicate Ordered(marks: seq<Mark>, to: nat) {
    && (forall k :: 0 <= k < |marks| ==> marks[k].at <= to)
    && (forall j, k :: 0 <= j < k < |marks| ==> marks[j].at <= marks[k].at)
  }

  /** `base` with a dummy in front of position `m.at` (or at the end) for every mark `m`. */
  function Weave(base: seq<Response>, marks: seq<Mark>): (out: seq<Response>)
    ensures |out| == |base| + |marks|
    decreases |base| + |marks|
  {
    if marks == [] then base
    else if marks[|marks| - 1].at < |base| then Weave(base[..|base| - 1], marks) + [base[|base| - 1]]
    else Weave(base, marks[..|marks| - 1]) + [DummyReply(marks[|marks| - 1].id)]
  }

  /** The element `r` put in at position `i`, as `Vec::insert` does. */
  function InsertAt(rs: seq<Response>, i: nat, r: Response): (out: seq<Response>)
    requires i <= |rs|
    ensures |out| == |rs| + 1
    decreases |rs|
  {
    if i == |rs| then rs + [r] else InsertAt(rs[..|rs| - 1], i, r) + [rs[|rs| - 1]]
  }

  lemma {:induction false} InsertAfter(prefix: seq<Response>, rs: seq<Response>, i: nat, r: Response)
    requires i <= |rs|
    ensures InsertAt(prefix + rs, |prefix| + i, r) == prefix + InsertAt(rs, i, r)
    decreases |rs|
  {
    if i < |rs| {
      InsertAfter(prefix, rs[..|rs| - 1], i, r);
      assert (prefix + rs)[..|prefix + rs| - 1] == prefix + rs[..|rs| - 1];
    }
  }

  /** Past the last mark the weave is the batch itself. */
  lemma {:induction false} WeaveBehind(base: seq<Response>, marks: seq<Mark>, b: Response)
    requires forall k :: 0 <= k < |marks| ==> marks[k].at <= |base|
    ensures Weave(base + [b], marks) == Weave(base, marks) + [b]
  {
    assert (base + [b])[..|base|] == base;
  }

  /** Inserting one more dummy, at or behind the last one, is weaving with one more mark. */
  lemma {:induction false} WeaveInserts(base: seq<Response>, marks: seq<Mark>, m: Mark)
    requires m.at <= |base| && forall k :: 0 <= k < |marks| ==> marks[k].at <= m.at
    ensures Weave(base, marks + [m]) == InsertAt(Weave(base, marks), m.at + |marks|, DummyReply(m.id))
    decreases |base|
  {
    assert (marks + [m])[..|marks|] == marks;
    if m.at < |base| {
      var front, b := base[..|base| - 1], base[|base| - 1];
      assert base == front + [b];
      WeaveInserts(front, marks, m);
      WeaveBehind(front, marks, b);
      assert (Weave(front, marks) + [b])[..|base| + |marks| - 1] == Weave(front, marks);
    }
  }

  lemma {:induction false} InsertStep(prefix: seq<Response>, base: seq<Response>, marks: seq<Mark>, m: Mark)
    requires m.at <= |base| && forall k :: 0 <= k < |marks| ==> marks[k].at <= m.at
    ensures InsertAt(prefix + Weave(base, marks), m.at + |marks| + |prefix|, DummyReply(m.id))
         == prefix + Weave(base, marks + [m])
  {
    WeaveInserts(base, marks, m);
    InsertAfter(prefix, Weave(base, marks), m.at + |marks|, DummyReply(m.id));
  }

  /** Where each dummy that is due lands, by the arithmetic of the fix-up loop. */
  function Marks(p: seq<Slot>, batch: seq<Response>): (marks: seq<Mark>)
    ensures |marks| == |Ranks(Ready(p, Solicited(batch)))|
  {
    var r := Ranks(Ready(p, Solicited(batch)));
    seq(|r|, k requires 0 <= k < |r| => Mark(r[k].id, Landing(r[k].at, k, batch)))
  }

  /** A batch of replies with the dummies that are now due put in, by the inserter's arithmetic. */
  function Merged(p: seq<Slot>, batch: seq<Response>): seq<Response> {
    Weave(batch, Marks(p, batch))
  }

  lemma {:induction false} MarksOrdered(p: seq<Slot>, batch: seq<Response>)
    requires Solicited(batch) <= Reals(p)
    ensures Ordered(Marks(p, batch), |batch|)
  {
    var n := Solicited(batch);
    var r := Ranks(Ready(p, n));
    ReadySplits(p, n);
    RanksOrdered(Ready(p, n));
    forall j, k | 0 <= j < k < |r| ensures Landing(r[j].at, j, batch) <= Landing(r[k].at, k, batch) {
      LandingMonotone(r[j].at, j, r[k].at, k, batch);
    }
  }

  // ---- the inserter --------------------------------------------------------------------

  /** The first `|marks|` dummies are due at their marks, the others lie beyond the batch. */
  predicate Due(fixed: seq<DummyRequest>, marks: seq<Mark>, len: nat) {
    && |marks| <= |fixed|
    && (forall k :: 0 <= k < |marks| ==> fixed[k] == DummyRequest(marks[k].id, marks[k].at + k))
    && (forall k :: |marks| <= k < |fixed| ==> fixed[k].requestIndex > len + |marks|)
  }

  /** The dummies that stay, as the fix-up leaves them: past the batch by their place in the rest. */
  predicate Beyond(fixed: seq<DummyRequest>, m: nat, len: nat, rest: seq<DummyRequest>) {
    && |fixed| == m + |rest|
    && forall j :: 0 <= j < |rest| ==>
         fixed[m + j] == DummyRequest(rest[j].requestId, rest[j].requestIndex + len + m)
  }

  lemma {:induction false} FixedUpAt(p: seq<Slot>, batch: seq<Response>, k: nat)
    requires k < |Ranks(p)|
    ensures FixUp(Positions(p), batch)[k]
         == DummyRequest(Ranks(p)[k].id, Landing(Ranks(p)[k].at, k, batch) + k)
  {
    PositionsAreRanks(p);
  }

  lemma {:induction false} FixedUpReady(ready: seq<Slot>, waiting: seq<Slot>, batch: seq<Response>, k: nat)
    requires k < |Ranks(ready)|
    ensures |Ranks(ready + waiting)| == |Ranks(ready)| + |Ranks(waiting)|
    ensures FixUp(Positions(ready + waiting), batch)[k]
         == DummyRequest(Ranks(ready)[k].id, Landing(Ranks(ready)[k].at, k, batch) + k)
  {
    RanksConcat(ready, waiting);
    FixedUpAt(ready + waiting, batch, k);
  }

  lemma {:induction false} FixedUpWaiting(ready: seq<Slot>, waiting: seq<Slot>, batch: seq<Response>, j: nat)
    requires Reals(ready) == Solicited(batch) && (waiting != [] ==> waiting[0].Real?)
    requires j < |Positions(waiting)|
    ensures |Positions(ready + waiting)| == |Ranks(ready)| + |Positions(waiting)|
    ensures var d, m := Positions(waiting)[j], |Ranks(ready)|;
            && FixUp(Positions(ready + waiting), batch)[m + j]
               == DummyRequest(d.requestId, d.requestIndex + |batch| + m)
            && d.requestIndex > 0
  {
    var p, m := ready + waiting, |Ranks(ready)|;
    RealsConcat(ready, waiting);
    RanksConcat(ready, waiting);
    RanksBehindReal(waiting);
    PositionsAreRanks(waiting);
    FixedUpAt(p, batch, m + j);
    LandingPastBatch(Ranks(p)[m + j].at, m + j, batch);
  }

  lemma {:induction false} FixedUpBeyond(ready: seq<Slot>, waiting: seq<Slot>, batch: seq<Response>)
    requires Reals(ready) == Solicited(batch) && (waiting != [] ==> waiting[0].Real?)
    ensures Beyond(FixUp(Positions(ready + waiting), batch), |Ranks(ready)|, |batch|, Positions(waiting))
    ensures forall k :: |Ranks(ready)| <= k < |Positions(ready + waiting)| ==>
      FixUp(Positions(ready + waiting), batch)[k].requestIndex > |batch| + |Ranks(ready)|
  {
    RealsConcat(ready, waiting);
    var fixed, rest, m := FixUp(Positions(ready + waiting), batch), Positions(waiting), |Ranks(ready)|;
    assert |fixed| == m + |rest|;
    forall k | m <= k < |fixed|
      ensures fixed[k] == DummyRequest(rest[k - m].requestId, rest[k - m].requestIndex + |batch| + m)
      ensures fixed[k].requestIndex > |batch| + m
    {
      FixedUpWaiting(ready, waiting, batch, k - m);
    }
    forall j | 0 <= j < |rest|
      ensures fixed[m + j] == DummyRequest(rest[j].requestId, rest[j].requestIndex + |batch| + m)
    {
      assert fixed[m + j] == DummyRequest(rest[m + j - m].requestId, rest[m + j - m].requestIndex + |batch| + m);
    }
  }

  lemma {:induction false} FixedUpDue(p: seq<Slot>, batch: seq<Response>)
    requires Solicited(batch) <= Reals(p)
    ensures Due(FixUp(Positions(p), batch), Marks(p, batch), |batch|)
    ensures Beyond(FixUp(Positions(p), batch), |Marks(p, batch)|, |batch|, Positions(Waiting(p, Solicited(batch))))
  {
    var n := Solicited(batch);
    var ready, waiting := Ready(p, n), Waiting(p, n);
    ReadySplits(p, n);
    FixedUpBeyond(ready, waiting, batch);
    var fixed, marks := FixUp(Positions(p), batch), Marks(p, batch);
    forall k | 0 <= k < |marks| ensures fixed[k] == DummyRequest(marks[k].id, marks[k].at + k) {
      FixedUpReady(ready, waiting, batch, k);
    }
  }

  lemma {:induction false} FixUpNext(d: seq<DummyRequest>, seen: seq<Response>, r: Response)
    ensures Solicited(seen + [r]) == Solicited(seen) + if r.requestId.Some? then 1 else 0
    ensures r.requestId.Some? ==> FixUp(d, seen + [r]) == FixUp(d, seen)
  {
    assert (seen + [r])[..|seen|] == seen;
  }

  /** The dummies that are due come first, and each finds its place once those ahead of it are in. */
  lemma {:induction false} DueFirst(fixed: seq<DummyRequest>, marks: seq<Mark>, n: nat, k: nat)
    requires Ordered(marks, n) && Due(fixed, marks, n) && k < |fixed|
    ensures fixed[k].requestIndex <= n + Min(k, |marks|) <==> k < |marks|
    ensures k < |marks| ==>
      fixed[k] == DummyRequest(marks[k].id, marks[k].at + k) && marks[..k] + [marks[k]] == marks[..k + 1]
  {
  }

  /** All that one call relies on. */
  lemma {:induction false} CallPlan(p: seq<Slot>, batch: seq<Response>)
    requires Solicited(batch) <= Reals(p)
    ensures var fixed, marks, rest := FixUp(Positions(p), batch), Marks(p, batch), Waiting(p, Solicited(batch));
            && Due(fixed, marks, |batch|) && Ordered(marks, |batch|)
            && Beyond(fixed, |marks|, |batch|, Positions(rest))
            && |p| == |marks| + Solicited(batch) + |rest|
  {
    FixedUpDue(p, batch);
    MarksOrdered(p, batch);
    ReadySplits(p, Solicited(batch));
  }

  class DummyResponseInserter {
    var dummyRequests: seq<DummyRequest>
    var pendingRequestsCount: nat
    /** The unanswered requests, oldest first. */
    ghost var pending: seq<Slot>

    ghost predicate Valid()
      reads this
    {
      dummyRequests == Positions(pending) && pendingRequestsCount == |pending|
    }

    constructor ()
      ensures Valid() && pending == []
    {
      dummyRequests, pendingRequestsCount, pending := [], 0, [];
    }

    /** The body of the loop in `process_requests`. */
    method NoteRequest(request: Request, at: nat, ghost p: seq<Slot>)
      requires dummyRequests == Positions(p) && at == |p|
      modifies `dummyRequests
      ensures dummyRequests == Positions(p + [SlotOf(request)])
    {
      SlotAppended(p, SlotOf(request));
      if request.responseIsDummy {
        dummyRequests := dummyRequests + [DummyRequest(request.id, at)];
      }
    }

    method ProcessRequests(requests: seq<Request>)
      requires Valid()
      modifies this
      ensures Valid() && pending == old(pending) + SlotsOf(requests)
    {
      var i := 0;
      ghost var p := pending;
      while i < |requests|
        invariant 0 <= i <= |requests|
        invariant pendingRequestsCount == |old(pending)| && |p| == pendingRequestsCount + i
        invariant p == Extended(old(pending), requests[..i])
        invariant dummyRequests == Positions(p)
      {
        NoteRequest(requests[i], pendingRequestsCount + i, p);
        ExtendedNext(old(pending), requests, i);
        p := p + [SlotOf(requests[i])];
        i := i + 1;
      }
      assert requests[..i] == requests;
      ExtendedBySlots(old(pending), requests);
      pendingRequestsCount := pendingRequestsCount + |requests|;
      pending := p;
    }

    /** The inner fix-up loop, for a reply without a request behind the replies `before` of the batch. */
    method SkipPush(ghost d: seq<DummyRequest>, ghost before: seq<Response>, at: nat, ghost push: Response)
      requires at == |before| && push.requestId.None? && dummyRequests == FixUp(d, before)
      modifies `dummyRequests
      ensures dummyRequests == FixUp(d, before + [push])
    {
      var k := 0;
      ghost var was := dummyRequests;
      while k < |dummyRequests|
        invariant 0 <= k <= |dummyRequests| == |was|
        invariant forall j :: 0 <= j < k ==>
          dummyRequests[j] == if at <= was[j].requestIndex + j
                              then was[j].(requestIndex := was[j].requestIndex + 1) else was[j]
        invariant forall j :: k <= j < |was| ==> dummyRequests[j] == was[j]
      {
        if at <= dummyRequests[k].requestIndex + k {
          dummyRequests := dummyRequests[k := dummyRequests[k].(requestIndex := dummyRequests[k].requestIndex + 1)];
        }
        k := k + 1;
      }
      assert (before + [push])[..at] == before;
    }

    /** First loop: replies that answer no request move the stored indexes along. */
    method FixUpIndexes(responses: seq<Response>, startAt: nat, ghost batch: seq<Response>)
      requires Valid() && startAt + |batch| == |responses|
      requires forall i :: 0 <= i < |batch| ==> responses[startAt + i] == batch[i]
      modifies `dummyRequests, `pendingRequestsCount
      ensures dummyRequests == FixUp(Positions(pending), batch)
      ensures pendingRequestsCount + Solicited(batch) == |pending| + |batch|
    {
      var i := 0;
      ghost var seen := [];
      while i < |responses| - startAt
        invariant 0 <= i <= |batch|
        invariant seen == batch[..i]
        invariant dummyRequests == FixUp(Positions(pending), seen)
        invariant pendingRequestsCount + Solicited(seen) == |pending| + i
      {
        FixUpNext(Positions(pending), seen, batch[i]);
        if responses[startAt + i].requestId.None? {
          SkipPush(Positions(pending), seen, i, batch[i]);
          pendingRequestsCount := pendingRequestsCount + 1;
        }
        seen := seen + [batch[i]];
        i := i + 1;
      }
      assert seen == batch;
    }

    /** Second loop: put in every dummy whose turn has come, keep the rest. */
    static method InsertDue(fixed: seq<DummyRequest>, ghost marks: seq<Mark>, responses: seq<Response>, startAt: nat,
                            ghost prefix: seq<Response>, ghost batch: seq<Response>)
      returns (kept: seq<DummyRequest>, out: seq<Response>, len: nat)
      requires responses == prefix + batch && |prefix| == startAt
      requires Ordered(marks, |batch|) && Due(fixed, marks, |batch|)
      ensures |kept| + |marks| == |fixed| && forall j :: 0 <= j < |kept| ==> kept[j] == fixed[|marks| + j]
      ensures out == prefix + Weave(batch, marks)
      ensures len == |batch| + |marks|
    {
      len := |responses| - startAt;
      out := responses;
      kept := [];
      ghost var done := [];
      var k := 0;
      while k < |fixed|
        invariant 0 <= k <= |fixed|
        invariant done == marks[..Min(k, |marks|)]
        invariant len == |batch| + Min(k, |marks|)
        invariant out == prefix + Weave(batch, done)
        invariant |kept| == k - Min(k, |marks|) && forall j :: 0 <= j < |kept| ==> kept[j] == fixed[|marks| + j]
      {
        DueFirst(fixed, marks, |batch|, k);
        if fixed[k].requestIndex <= len {
          InsertStep(prefix, batch, done, marks[k]);
          out := InsertAt(out, fixed[k].requestIndex + startAt, DummyReply(fixed[k].requestId));
          done := done + [marks[k]];
          len := len + 1;
        } else {
          kept := kept + [fixed[k]];
        }
        k := k + 1;
      }
      assert done == marks;
    }

    /** Third loop: make the surviving indexes relative to the next batch. */
    static method Rebase(kept: seq<DummyRequest>, len: nat, ghost rest: seq<DummyRequest>)
      returns (d: seq<DummyRequest>)
      requires |kept| == |rest|
      requires forall j :: 0 <= j < |kept| ==>
        kept[j] == DummyRequest(rest[j].requestId, rest[j].requestIndex + len)
      ensures d == rest
    {
      d := [];
      var i := 0;
      while i < |kept|
        invariant 0 <= i <= |kept|
        invariant |d| == i && forall j :: 0 <= j < i ==> d[j] == rest[j]
      {
        d := d + [kept[i].(requestIndex := kept[i].requestIndex - len)];
        i := i + 1;
      }
    }

    /**
     * Takes the replies `batch` that stand behind `prefix` in `responses`.  The caller owes a reply
     * stream in which the server never answers more requests than were sent to it.
     */
    method ProcessResponses(responses: seq<Response>, startAt: nat, ghost prefix: seq<Response>,
                            ghost batch: seq<Response>)
      returns (out: seq<Response>)
      requires Valid()
      requires responses == prefix + batch && |prefix| == startAt
      requires Solicited(batch) <= Reals(pending)
      modifies this
      ensures Valid()
      ensures pending == Waiting(old(pending), Solicited(batch))
      ensures out == prefix + Merged(old(pending), batch)
    {
      FixUpIndexes(responses, startAt, batch);
      CallPlan(pending, batch);
      ghost var waiting := Waiting(pending, Solicited(batch));
      var kept, len;
      kept, out, len := InsertDue(dummyRequests, Marks(pending, batch), responses, startAt, prefix, batch);
      dummyRequests := Rebase(kept, len, Positions(waiting));
      pendingRequestsCount := pendingRequestsCount - len;
      pending := waiting;
    }
  }
}
