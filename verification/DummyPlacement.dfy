/** Where the inserter puts its dummies: what holds for every batch, and exactly when the order is right. */
module DummyPlacement {
  import opened Messages
  import opened DummyInserter

  // ---- counting pushes ------------------------------------------------------------------

  /** Pushes that arrive before more than `r` server replies have. */
  function EarlyPushes(batch: seq<Response>, r: nat): nat {
    if batch == [] then 0
    else
      var b := batch[..|batch| - 1];
      if batch[|batch| - 1].requestId.None? && Solicited(b) <= r then EarlyPushes(b, r) + 1
      else EarlyPushes(b, r)
  }

  /**
   * The fix-up loop miscounts, for the dummy of rank `k` with `r` real requests ahead, the pushes
   * that come behind more than `r` but at most `r + 2 * k` of the batch's server replies.
   */
  predicate NoClash(batch: seq<Response>, r: nat, k: nat) {
    batch != [] ==>
      var b := batch[..|batch| - 1];
      NoClash(b, r, k) && !(batch[|batch| - 1].requestId.None? && r < Solicited(b) <= r + 2 * k)
  }

  lemma {:induction false} EarlyPushesAll(batch: seq<Response>, r: nat)
    requires Solicited(batch) <= r
    ensures EarlyPushes(batch, r) + Solicited(batch) == |batch|
  {
    if batch != [] {
      EarlyPushesAll(batch[..|batch| - 1], r);
    }
  }

  lemma {:induction false} EarlyPushesBound(batch: seq<Response>, r: nat)
    ensures EarlyPushes(batch, r) + Solicited(batch) <= |batch|
  {
    if batch != [] {
      EarlyPushesBound(batch[..|batch| - 1], r);
    }
  }

  lemma {:induction false} NoLatePushes(batch: seq<Response>, r: nat, k: nat)
    requires NoClash(batch, r, k) && Solicited(batch) <= r + 2 * k
    ensures EarlyPushes(batch, r) + Solicited(batch) == |batch|
  {
    if batch != [] {
      NoLatePushes(batch[..|batch| - 1], r, k);
    }
  }

  /** The fix-up loop counts exactly the early pushes, unless there is a clash; then it overshoots. */
  lemma {:induction false} LandingCounts(batch: seq<Response>, r: nat, k: nat)
    ensures Landing(r, k, batch) >= r + EarlyPushes(batch, r)
    ensures NoClash(batch, r, k) <==> Landing(r, k, batch) == r + EarlyPushes(batch, r)
  {
    if batch != [] {
      var b := batch[..|batch| - 1];
      LandingCounts(b, r, k);
      if batch[|batch| - 1].requestId.None? {
        if Solicited(b) <= r {
          EarlyPushesAll(b, r);
        } else if NoClash(b, r, k) && Solicited(b) <= r + 2 * k {
          NoLatePushes(b, r, k);
        } else {
          EarlyPushesBound(b, r);
        }
      }
    }
  }

  /** Cutting a batch behind `r` replies and the early pushes leaves exactly `r` server replies in front. */
  lemma {:induction false} EarlyPushesCut(batch: seq<Response>, r: nat, g: nat)
    requires r <= Solicited(batch) && r + EarlyPushes(batch, r) <= g <= |batch|
    ensures Solicited(batch[..g]) >= r
    ensures Solicited(batch[..g]) == r <==> g == r + EarlyPushes(batch, r)
  {
    if g == |batch| {
      assert batch[..g] == batch;
      if Solicited(batch) == r {
        EarlyPushesAll(batch, r);
      } else {
        EarlyPushesBound(batch, r);
      }
    } else {
      var b := batch[..|batch| - 1];
      assert batch[..g] == b[..g];
      if Solicited(b) < r {
        EarlyPushesAll(b, r);
      } else {
        EarlyPushesCut(b, r, g);
        if batch[|batch| - 1].requestId.None? && Solicited(b) <= r {
          EarlyPushesAll(b, r);
        }
      }
    }
  }

  // ---- the order of the answers ----------------------------------------------------------

  /** The same dummies, placed by how many server replies are ahead of them rather than by position. */
  predicate Projected(base: seq<Response>, marks: seq<Mark>, ms: seq<Mark>) {
    && Ordered(marks, |base|)
    && |ms| == |marks|
    && forall k :: 0 <= k < |ms| ==> ms[k] == Mark(marks[k].id, Solicited(base[..marks[k].at]))
  }

  lemma {:induction false} SolicitedMonotone(batch: seq<Response>, i: nat)
    requires i <= |batch|
    ensures Solicited(batch[..i]) <= Solicited(batch)
  {
    if i < |batch| {
      SolicitedMonotone(batch[..|batch| - 1], i);
      assert batch[..|batch| - 1][..i] == batch[..i];
    } else {
      assert batch[..i] == batch;
    }
  }

  lemma {:induction false} ProjectedBound(base: seq<Response>, marks: seq<Mark>, ms: seq<Mark>)
    requires Projected(base, marks, ms)
    ensures forall k :: 0 <= k < |ms| ==> ms[k].at <= Solicited(base)
  {
    forall k | 0 <= k < |ms| ensures ms[k].at <= Solicited(base) {
      SolicitedMonotone(base, marks[k].at);
    }
  }

  lemma {:induction false} ProjectedFront(base: seq<Response>, marks: seq<Mark>, ms: seq<Mark>)
    requires marks != [] && Projected(base, marks, ms) && marks[|marks| - 1].at < |base|
    ensures Projected(base[..|base| - 1], marks, ms)
  {
    forall k | 0 <= k < |marks| ensures base[..|base| - 1][..marks[k].at] == base[..marks[k].at] {
      assert marks[k].at <= marks[|marks| - 1].at;
    }
  }

  /** Dropping the pushes from a woven batch weaves the dummies into the server replies. */
  lemma {:induction false} SolicitedOfWeave(base: seq<Response>, marks: seq<Mark>, ms: seq<Mark>)
    requires Projected(base, marks, ms)
    ensures SolicitedOf(Weave(base, marks)) == Weave(SolicitedOf(base), ms)
    decreases |base| + |marks|, 1
  {
    if marks == [] {
    } else if marks[|marks| - 1].at < |base| {
      ProjectedFront(base, marks, ms);
      SolicitedOfBehind(base[..|base| - 1], base[|base| - 1], marks, ms);
      assert base == base[..|base| - 1] + [base[|base| - 1]];
    } else {
      SolicitedOfDummy(base, marks, ms);
    }
  }

  lemma {:induction false} SolicitedOfBehind(front: seq<Response>, b: Response, marks: seq<Mark>, ms: seq<Mark>)
    requires Projected(front, marks, ms)
    ensures SolicitedOf(Weave(front, marks) + [b]) == Weave(SolicitedOf(front + [b]), ms)
    decreases |front| + |marks|, 2
  {
    SolicitedOfWeave(front, marks, ms);
    ProjectedBound(front, marks, ms);
    assert (front + [b])[..|front|] == front;
    assert (Weave(front, marks) + [b])[..|front| + |marks|] == Weave(front, marks);
    if b.requestId.Some? {
      WeaveBehind(SolicitedOf(front), ms, b);
    }
  }

  lemma {:induction false} SolicitedOfDummy(base: seq<Response>, marks: seq<Mark>, ms: seq<Mark>)
    requires marks != [] && Projected(base, marks, ms) && marks[|marks| - 1].at >= |base|
    ensures SolicitedOf(Weave(base, marks)) == Weave(SolicitedOf(base), ms)
    decreases |base| + |marks|, 0
  {
    var init, front := marks[..|marks| - 1], ms[..|ms| - 1];
    assert Projected(base, init, front);
    SolicitedOfWeave(base, init, front);
    assert base[..|base|] == base;
    var d := DummyReply(marks[|marks| - 1].id);
    assert (Weave(base, init) + [d])[..|base| + |init|] == Weave(base, init);
  }

  /** The reference answer is the weave of the replies with the dummies at their ranks. */
  lemma {:induction false} AnswersAreWoven(p: seq<Slot>, rs: seq<Response>)
    requires Reals(p) == |rs|
    ensures Answers(p, rs) == Weave(rs, Ranks(p))
  {
    if p == [] {
    } else {
      var q := p[..|p| - 1];
      if p[|p| - 1].Real? {
        AnswersAreWoven(q, rs[..|rs| - 1]);
        RanksOrdered(q);
        WeaveBehind(rs[..|rs| - 1], Ranks(q), rs[|rs| - 1]);
        assert rs == rs[..|rs| - 1] + [rs[|rs| - 1]];
      } else {
        AnswersAreWoven(q, rs);
        var m := Mark(p[|p| - 1].id, |rs|);
        assert (Ranks(q) + [m])[..|Ranks(q)|] == Ranks(q);
      }
    }
  }

  predicate SameIds(a: seq<Mark>, b: seq<Mark>) {
    |a| == |b| && forall k :: 0 <= k < |a| ==> a[k].id == b[k].id
  }

  /** The last reply of a weave, and what is in front of it. */
  lemma {:induction false} WeaveLast(rs: seq<Response>, marks: seq<Mark>)
    requires marks != []
    ensures var w := Weave(rs, marks);
            if marks[|marks| - 1].at < |rs|
            then w[|w| - 1] == rs[|rs| - 1] && w[..|w| - 1] == Weave(rs[..|rs| - 1], marks)
            else w[|w| - 1] == DummyReply(marks[|marks| - 1].id) && w[..|w| - 1] == Weave(rs, marks[..|marks| - 1])
  {
  }

  lemma {:induction false} OrderedShrinks(marks: seq<Mark>, to: nat)
    requires marks != [] && Ordered(marks, to)
    ensures Ordered(marks[..|marks| - 1], to)
    ensures marks[|marks| - 1].at < to ==> Ordered(marks, to - 1)
  {
  }

  /** Equal weaves end alike, and stay equal without their last reply. */
  lemma {:induction false} WeavesEndAlike(rs: seq<Response>, a: seq<Mark>, b: seq<Mark>)
    requires a != [] && b != [] && FromServer(rs) && Weave(rs, a) == Weave(rs, b)
    ensures a[|a| - 1].at < |rs| <==> b[|b| - 1].at < |rs|
    ensures a[|a| - 1].at < |rs| ==> Weave(rs[..|rs| - 1], a) == Weave(rs[..|rs| - 1], b)
    ensures a[|a| - 1].at >= |rs| ==> Weave(rs, a[..|a| - 1]) == Weave(rs, b[..|b| - 1])
  {
    WeaveLast(rs, a);
    WeaveLast(rs, b);
  }

  /** Two weaves of the same server replies agree only if every dummy is in the same place. */
  lemma {:induction false} WeaveInjective(rs: seq<Response>, a: seq<Mark>, b: seq<Mark>)
    requires Ordered(a, |rs|) && Ordered(b, |rs|) && SameIds(a, b) && FromServer(rs)
    requires Weave(rs, a) == Weave(rs, b)
    ensures a == b
    decreases |rs| + |a|
  {
    if a != [] {
      WeavesEndAlike(rs, a, b);
      OrderedShrinks(a, |rs|);
      OrderedShrinks(b, |rs|);
      if a[|a| - 1].at < |rs| {
        WeaveInjective(rs[..|rs| - 1], a, b);
      } else {
        WeaveInjective(rs, a[..|a| - 1], b[..|b| - 1]);
        SameButLast(a, b);
      }
    }
  }

  lemma {:induction false} SameButLast(a: seq<Mark>, b: seq<Mark>)
    requires a != [] && b != [] && a[..|a| - 1] == b[..|b| - 1] && a[|a| - 1] == b[|b| - 1]
    ensures a == b
  {
    assert a == a[..|a| - 1] + [a[|a| - 1]] && b == b[..|b| - 1] + [b[|b| - 1]];
  }

  /** The dummies `batch` releases, each with the number of server replies it lands behind. */
  function Landed(p: seq<Slot>, batch: seq<Response>): (ms: seq<Mark>)
    requires Solicited(batch) <= Reals(p)
    ensures |ms| == |Marks(p, batch)| && Projected(batch, Marks(p, batch), ms)
  {
    MarksOrdered(p, batch);
    var marks := Marks(p, batch);
    seq(|marks|, k requires 0 <= k < |marks| => Mark(marks[k].id, Solicited(batch[..marks[k].at])))
  }

  /** A dummy never lands early, and lands where it belongs exactly when no push clashes with it. */
  lemma {:induction false} DummyLands(p: seq<Slot>, batch: seq<Response>, k: nat)
    requires Solicited(batch) <= Reals(p) && k < |Landed(p, batch)|
    ensures var right := Ranks(Ready(p, Solicited(batch)))[k];
            && Landed(p, batch)[k].id == right.id
            && Landed(p, batch)[k].at >= right.at
            && (Landed(p, batch)[k].at == right.at <==> NoClash(batch, right.at, k))
  {
    var n := Solicited(batch);
    ReadySplits(p, n);
    RanksOrdered(Ready(p, n));
    var r := Ranks(Ready(p, n))[k].at;
    LandingCounts(batch, r, k);
    EarlyPushesCut(batch, r, Landing(r, k, batch));
  }

  /** No push of the batch is miscounted for a dummy the batch releases. */
  ghost predicate Unclashed(p: seq<Slot>, batch: seq<Response>) {
    var right := Ranks(Ready(p, Solicited(batch)));
    forall k :: 0 <= k < |right| ==> NoClash(batch, right[k].at, k)
  }

  /**
   * Exactly when one call answers its requests in order: the replies that answer a request, dummies
   * included, are the answers to the requests that are due if and only if no push clashes.
   */
  lemma {:induction false} OrderExactlyWhenUnclashed(p: seq<Slot>, batch: seq<Response>)
    requires Solicited(batch) <= Reals(p) && FromServer(batch)
    ensures Reals(Ready(p, Solicited(batch))) == Solicited(batch)
    ensures SolicitedOf(Merged(p, batch)) == Answers(Ready(p, Solicited(batch)), SolicitedOf(batch))
       <==> Unclashed(p, batch)
  {
    var ready := Ready(p, Solicited(batch));
    ReadySplits(p, Solicited(batch));
    RanksOrdered(ready);
    var rs := SolicitedOf(batch);
    var right, landed := Ranks(ready), Landed(p, batch);
    SolicitedOfWeave(batch, Marks(p, batch), landed);
    AnswersAreWoven(ready, rs);
    forall k | 0 <= k < |right|
      ensures landed[k].id == right[k].id && (landed[k].at == right[k].at <==> NoClash(batch, right[k].at, k))
    {
      DummyLands(p, batch, k);
    }
    SameWeaveIffSameMarks(batch, Marks(p, batch), landed, right);
    assert landed == right <==> Unclashed(p, batch);
  }

  lemma {:induction false} SameWeaveIffSameMarks(
    batch: seq<Response>, marks: seq<Mark>, landed: seq<Mark>, right: seq<Mark>)
    requires FromServer(batch) && Projected(batch, marks, landed)
    requires Ordered(right, Solicited(batch)) && SameIds(landed, right)
    ensures Weave(SolicitedOf(batch), landed) == Weave(SolicitedOf(batch), right) <==> landed == right
  {
    SolicitedOfMembers(batch);
    ProjectedOrdered(batch, marks, landed);
    if Weave(SolicitedOf(batch), landed) == Weave(SolicitedOf(batch), right) {
      WeaveInjective(SolicitedOf(batch), landed, right);
    }
  }

  lemma {:induction false} ProjectedOrdered(base: seq<Response>, marks: seq<Mark>, ms: seq<Mark>)
    requires Projected(base, marks, ms)
    ensures Ordered(ms, Solicited(base))
  {
    ProjectedBound(base, marks, ms);
    forall j, k | 0 <= j < k < |ms| ensures ms[j].at <= ms[k].at {
      assert base[..marks[k].at][..marks[j].at] == base[..marks[j].at];
      SolicitedMonotone(base[..marks[k].at], marks[j].at);
    }
  }

  lemma {:induction false} NoPushNoClash(batch: seq<Response>, r: nat, k: nat)
    requires AllSolicited(batch)
    ensures NoClash(batch, r, k)
  {
    if batch != [] {
      NoPushNoClash(batch[..|batch| - 1], r, k);
    }
  }

  lemma {:induction false} SolicitedUnclashed(p: seq<Slot>, batch: seq<Response>)
    requires AllSolicited(batch)
    ensures Unclashed(p, batch)
  {
    var right := Ranks(Ready(p, Solicited(batch)));
    forall k | 0 <= k < |right| ensures NoClash(batch, right[k].at, k) {
      NoPushNoClash(batch, right[k].at, k);
    }
  }

  lemma {:induction false} WeaveSolicited(base: seq<Response>, marks: seq<Mark>)
    requires AllSolicited(base)
    ensures AllSolicited(Weave(base, marks))
    decreases |base| + |marks|
  {
    if marks == [] {
    } else if marks[|marks| - 1].at < |base| {
      WeaveSolicited(base[..|base| - 1], marks);
    } else {
      WeaveSolicited(base, marks[..|marks| - 1]);
    }
  }

  // ---- nothing lost, nothing invented, whatever the pushes --------------------------------

  /** The replies that came from the server, in order. */
  function ServerReplies(rs: seq<Response>): seq<Response> {
    if rs == [] then []
    else if rs[|rs| - 1].body.Content? then ServerReplies(rs[..|rs| - 1]) + [rs[|rs| - 1]]
    else ServerReplies(rs[..|rs| - 1])
  }

  /** The requests answered by a dummy, in order. */
  function DummiesIn(rs: seq<Response>): seq<Option<MessageId>> {
    if rs == [] then []
    else if rs[|rs| - 1].body.DummyFrame? then DummiesIn(rs[..|rs| - 1]) + [rs[|rs| - 1].requestId]
    else DummiesIn(rs[..|rs| - 1])
  }

  function SyntheticIds(p: seq<Slot>): seq<Option<MessageId>> {
    if p == [] then []
    else if p[|p| - 1].Synthetic? then SyntheticIds(p[..|p| - 1]) + [Some(p[|p| - 1].id)]
    else SyntheticIds(p[..|p| - 1])
  }

  lemma {:induction false} FiltersConcat(a: seq<Response>, b: seq<Response>)
    ensures ServerReplies(a + b) == ServerReplies(a) + ServerReplies(b)
    ensures DummiesIn(a + b) == DummiesIn(a) + DummiesIn(b)
  {
    if b == [] {
      assert a + b == a;
    } else {
      FiltersConcat(a, b[..|b| - 1]);
      assert (a + b)[..|a + b| - 1] == a + b[..|b| - 1];
    }
  }

  lemma {:induction false} SyntheticIdsConcat(a: seq<Slot>, b: seq<Slot>)
    ensures SyntheticIds(a + b) == SyntheticIds(a) + SyntheticIds(b)
  {
    if b == [] {
      assert a + b == a;
    } else {
      SyntheticIdsConcat(a, b[..|b| - 1]);
      assert (a + b)[..|a + b| - 1] == a + b[..|b| - 1];
    }
  }

  lemma {:induction false} FiltersOfServer(rs: seq<Response>)
    requires FromServer(rs)
    ensures ServerReplies(rs) == rs && DummiesIn(rs) == []
  {
    if rs != [] {
      FiltersOfServer(rs[..|rs| - 1]);
      assert rs == rs[..|rs| - 1] + [rs[|rs| - 1]];
    }
  }

  function MarkIds(marks: seq<Mark>): (ids: seq<Option<MessageId>>)
    ensures |ids| == |marks|
  {
    seq(|marks|, k requires 0 <= k < |marks| => Some(marks[k].id))
  }

  lemma {:induction false} FilterLast(rs: seq<Response>, r: Response)
    ensures ServerReplies(rs + [r]) == if r.body.Content? then ServerReplies(rs) + [r] else ServerReplies(rs)
    ensures DummiesIn(rs + [r]) == if r.body.Content? then DummiesIn(rs) else DummiesIn(rs) + [r.requestId]
  {
    assert (rs + [r])[..|rs|] == rs;
  }

  lemma {:induction false} MarkIdsLast(marks: seq<Mark>)
    requires marks != []
    ensures MarkIds(marks) == MarkIds(marks[..|marks| - 1]) + [Some(marks[|marks| - 1].id)]
  {
  }

  lemma {:induction false} WeaveKeepsReplies(base: seq<Response>, marks: seq<Mark>)
    requires FromServer(base)
    ensures ServerReplies(Weave(base, marks)) == base
    decreases |base| + |marks|
  {
    if marks == [] {
      FiltersOfServer(base);
    } else if marks[|marks| - 1].at < |base| {
      var front := base[..|base| - 1];
      WeaveKeepsReplies(front, marks);
      FilterLast(Weave(front, marks), base[|base| - 1]);
      LastOfConcat([], base);
      assert [] + base == base && [] + front == front;
    } else {
      WeaveKeepsReplies(base, marks[..|marks| - 1]);
      FilterLast(Weave(base, marks[..|marks| - 1]), DummyReply(marks[|marks| - 1].id));
    }
  }

  lemma {:induction false} WeaveKeepsDummies(base: seq<Response>, marks: seq<Mark>)
    requires FromServer(base)
    ensures DummiesIn(Weave(base, marks)) == MarkIds(marks)
    decreases |base| + |marks|
  {
    if marks == [] {
      FiltersOfServer(base);
    } else if marks[|marks| - 1].at < |base| {
      WeaveKeepsDummies(base[..|base| - 1], marks);
      FilterLast(Weave(base[..|base| - 1], marks), base[|base| - 1]);
    } else {
      WeaveKeepsDummies(base, marks[..|marks| - 1]);
      FilterLast(Weave(base, marks[..|marks| - 1]), DummyReply(marks[|marks| - 1].id));
      MarkIdsLast(marks);
    }
  }

  lemma {:induction false} SyntheticIdsAreMarks(p: seq<Slot>)
    ensures SyntheticIds(p) == MarkIds(Ranks(p))
  {
    if p != [] {
      SyntheticIdsAreMarks(p[..|p| - 1]);
    }
  }

  /**
   * Pushes or not: received replies keep their order, and the dummies emitted by a call are those of
   * the requests that are due, each once and in order.
   */
  lemma {:induction false} CallConserves(p: seq<Slot>, batch: seq<Response>)
    requires FromServer(batch)
    ensures ServerReplies(Merged(p, batch)) == batch
    ensures DummiesIn(Merged(p, batch)) == SyntheticIds(Ready(p, Solicited(batch)))
  {
    WeaveKeepsReplies(batch, Marks(p, batch));
    WeaveKeepsDummies(batch, Marks(p, batch));
    SyntheticIdsAreMarks(Ready(p, Solicited(batch)));
    assert MarkIds(Marks(p, batch)) == MarkIds(Ranks(Ready(p, Solicited(batch))));
  }

  // ---- a clash -----------------------------------------------------------------------------

  lemma {:induction false} TwoDummies(a: MessageId, b: MessageId, c: MessageId)
    ensures var p := [Synthetic(a), Synthetic(b), Real(c)];
            Reals(p) == 1 && Ranks(p) == [Mark(a, 0), Mark(b, 0)] && Ready(p, 1) == p
  {
    var p1, p2, p := [Synthetic(a)], [Synthetic(a), Synthetic(b)], [Synthetic(a), Synthetic(b), Real(c)];
    assert p[..2] == p2 && p2[..1] == p1 && p1[..0] == [];
    assert Reals(p1) == 0 && Ranks(p1) == [Mark(a, 0)];
    assert Reals(p2) == 0 && Ranks(p2) == [Mark(a, 0), Mark(b, 0)];
  }

  lemma {:induction false} ReplyThenPush(reply: Response, push: Response)
    requires reply.requestId.Some? && push.requestId.None?
    ensures Solicited([reply, push]) == 1
    ensures Landing(0, 0, [reply, push]) == 0 && Landing(0, 1, [reply, push]) == 1
    ensures !NoClash([reply, push], 0, 1)
  {
    var batch := [reply, push];
    assert batch[..1] == [reply] && [reply][..0] == [];
    assert Solicited([reply]) == 1;
    assert Shifted(0, 0, [reply]) == 0;
    assert Shifted(1, 1, [reply]) == 1;
  }

  /** Two pending dummies and one push behind a reply: the second dummy lands one reply too late. */
  lemma {:induction false} ClashExample(a: MessageId, b: MessageId, c: MessageId, reply: Response, push: Response)
    requires reply.requestId == Some(c) && push.requestId.None?
    ensures Solicited([reply, push]) <= Reals([Synthetic(a), Synthetic(b), Real(c)])
    ensures Merged([Synthetic(a), Synthetic(b), Real(c)], [reply, push]) == [DummyReply(a), reply, DummyReply(b), push]
    ensures !Unclashed([Synthetic(a), Synthetic(b), Real(c)], [reply, push])
  {
    TwoDummies(a, b, c);
    ReplyThenPush(reply, push);
    var p, batch := [Synthetic(a), Synthetic(b), Real(c)], [reply, push];
    var marks := [Mark(a, 0), Mark(b, 1)];
    assert Marks(p, batch) == marks;
    assert marks[..1] == [Mark(a, 0)] && [Mark(a, 0)][..0] == [];
    assert batch[..1] == [reply] && [reply][..0] == [];
    assert Weave([reply], [Mark(a, 0)]) == [DummyReply(a), reply];
    assert Weave([reply], marks) == [DummyReply(a), reply, DummyReply(b)];
    var right := Ranks(Ready(p, Solicited(batch)));
    assert !NoClash(batch, right[1].at, 1);
  }

  // ---- the pending count ---------------------------------------------------------------------------

  /** How many dummies the second loop puts in, for any stored indexes. */
  function Inserted(fixed: seq<DummyRequest>, len: nat): (n: nat)
    ensures n <= |fixed|
  {
    if fixed == [] then 0
    else
      var n := Inserted(fixed[..|fixed| - 1], len);
      if fixed[|fixed| - 1].requestIndex <= len + n then n + 1 else n
  }

  /** The pending count at the end of a call: pushes are added, and the length of the output is taken off. */
  function CountLeft(p: seq<Slot>, batch: seq<Response>): int {
    |p| + (|batch| - Solicited(batch)) - (|batch| + Inserted(FixUp(Positions(p), batch), |batch|))
  }

  lemma {:induction false} InsertedDue(fixed: seq<DummyRequest>, marks: seq<Mark>, len: nat, k: nat)
    requires Ordered(marks, len) && Due(fixed, marks, len) && k <= |fixed|
    ensures Inserted(fixed[..k], len) == Min(k, |marks|)
  {
    if k > 0 {
      InsertedDue(fixed, marks, len, k - 1);
      assert fixed[..k][..k - 1] == fixed[..k - 1];
      DueFirst(fixed, marks, len, k - 1);
    }
  }

  /** With at least as many replies as requests that wait for one, every dummy is put in. */
  lemma {:induction false} InsertedAll(p: seq<Slot>, batch: seq<Response>, k: nat)
    requires Solicited(batch) >= Reals(p) && k <= |Positions(p)|
    ensures Inserted(FixUp(Positions(p), batch)[..k], |batch|) == k
  {
    if k > 0 {
      var fixed := FixUp(Positions(p), batch);
      InsertedAll(p, batch, k - 1);
      assert fixed[..k][..k - 1] == fixed[..k - 1];
      FixedUpAt(p, batch, k - 1);
      RanksOrdered(p);
    }
  }

  /** The pending count goes below zero exactly when more replies come than there are requests that wait for one. */
  lemma {:induction false} CountLeftExactly(p: seq<Slot>, batch: seq<Response>)
    ensures CountLeft(p, batch)
         == if Solicited(batch) <= Reals(p) then |Waiting(p, Solicited(batch))| else Reals(p) - Solicited(batch)
    ensures CountLeft(p, batch) < 0 <==> Solicited(batch) > Reals(p)
  {
    var fixed := FixUp(Positions(p), batch);
    assert fixed[..|fixed|] == fixed;
    if Solicited(batch) <= Reals(p) {
      CallPlan(p, batch);
      InsertedDue(fixed, Marks(p, batch), |batch|, |fixed|);
    } else {
      InsertedAll(p, batch, |fixed|);
    }
  }
}
