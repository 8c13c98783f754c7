/** Tee for in-order protocols: two reply queues, paired front against front. */
module TeeInOrder {
  import opened Messages
  import opened TeeReplies

  // ---- the account ---------------------------------------------------------------------------------

  /** Where a reply that was sent on came from. */
  datatype Origin = TeePush | ChainPush | Pair

  /** What has gone through so far: taken off each queue, and given out. */
  datatype Account = Account(
    tee: seq<Response>, chain: seq<Response>, picks: seq<Pick>, out: seq<Response>, origins: seq<Origin>,
    mismatches: seq<Mismatch>)

  const opening := Account([], [], [], [], [], [])

  /** The replies sent on that came from `o`, in order. */
  function From(out: seq<Response>, origins: seq<Origin>, o: Origin): seq<Response>
    requires |out| == |origins|
  {
    if out == [] then []
    else
      var n := |out| - 1;
      if origins[n] == o then From(out[..n], origins[..n], o) + [out[n]] else From(out[..n], origins[..n], o)
  }

  /** Pair i settled by pick i. */
  function SettledAll(picks: seq<Pick>, ts: seq<Response>, cs: seq<Response>): seq<Response>
    requires |picks| == |ts| == |cs|
  {
    seq(|picks|, i requires 0 <= i < |picks| => Settled(picks[i], ts[i], cs[i]))
  }

  /** The mismatches among the pairs. */
  function MismatchesOf(picks: seq<Pick>, ts: seq<Response>, cs: seq<Response>): seq<Mismatch>
    requires |picks| == |ts| == |cs|
  {
    if picks == [] then []
    else
      var n := |picks| - 1;
      MismatchesOf(picks[..n], ts[..n], cs[..n]) + MismatchOf(picks[n], ts[n], cs[n])
  }

  /** As many pairs as replies on either side; pair i sent on as picked, in order; handlers called on unequal pairs. */
  ghost predicate Paired(a: Account) {
    && Solicited(a.tee) == |a.picks| && Solicited(a.chain) == |a.picks|
    && SolicitedOf(a.out) == SettledAll(a.picks, SolicitedOf(a.tee), SolicitedOf(a.chain))
    && a.mismatches == MismatchesOf(a.picks, SolicitedOf(a.tee), SolicitedOf(a.chain))
  }

  /** No push is lost, made up or moved: each chain's pushes come out in the order they came in. */
  ghost predicate PushesKept(a: Account) {
    && |a.origins| == |a.out|
    && From(a.out, a.origins, TeePush) == PushesOf(a.tee)
    && From(a.out, a.origins, ChainPush) == PushesOf(a.chain)
    && From(a.out, a.origins, Pair) == SolicitedOf(a.out)
  }

  ghost predicate Balanced(a: Account) {
    Paired(a) && PushesKept(a)
  }

  function TakeTee(a: Account, r: Response): Account {
    a.(tee := a.tee + [r], out := a.out + [r], origins := a.origins + [TeePush])
  }

  function TakeChain(a: Account, r: Response): Account {
    a.(chain := a.chain + [r], out := a.out + [r], origins := a.origins + [ChainPush])
  }

  function TakePair(a: Account, p: Pick, t: Response, c: Response): Account {
    Account(a.tee + [t], a.chain + [c], a.picks + [p], a.out + [Settled(p, t, c)], a.origins + [Pair],
            a.mismatches + MismatchOf(p, t, c))
  }

  lemma {:induction false} Appended(rs: seq<Response>, r: Response)
    ensures Solicited(rs + [r]) == Solicited(rs) + if r.requestId.Some? then 1 else 0
    ensures SolicitedOf(rs + [r]) == if r.requestId.Some? then SolicitedOf(rs) + [r] else SolicitedOf(rs)
    ensures PushesOf(rs + [r]) == if r.requestId.None? then PushesOf(rs) + [r] else PushesOf(rs)
  {
    assert (rs + [r])[..|rs|] == rs;
  }

  lemma {:induction false} FromAppended(out: seq<Response>, origins: seq<Origin>, r: Response, x: Origin, o: Origin)
    requires |out| == |origins|
    ensures From(out + [r], origins + [x], o) == if x == o then From(out, origins, o) + [r] else From(out, origins, o)
  {
    var n := |out|;
    assert (out + [r])[..n] == out && (origins + [x])[..n] == origins;
  }

  lemma {:induction false} TakeTeePushes(a: Account, r: Response)
    requires PushesKept(a) && r.requestId.None?
    ensures PushesKept(TakeTee(a, r))
  {
    Appended(a.tee, r);
    Appended(a.out, r);
    FromAppended(a.out, a.origins, r, TeePush, TeePush);
    FromAppended(a.out, a.origins, r, TeePush, ChainPush);
    FromAppended(a.out, a.origins, r, TeePush, Pair);
  }

  lemma {:induction false} TakeChainPushes(a: Account, r: Response)
    requires PushesKept(a) && r.requestId.None?
    ensures PushesKept(TakeChain(a, r))
  {
    Appended(a.chain, r);
    Appended(a.out, r);
    FromAppended(a.out, a.origins, r, ChainPush, TeePush);
    FromAppended(a.out, a.origins, r, ChainPush, ChainPush);
    FromAppended(a.out, a.origins, r, ChainPush, Pair);
  }

  lemma {:induction false} TakePairPushes(a: Account, p: Pick, t: Response, c: Response)
    requires PushesKept(a) && t.requestId.Some? && c.requestId.Some?
    ensures PushesKept(TakePair(a, p, t, c))
  {
    var r := Settled(p, t, c);
    Appended(a.tee, t);
    Appended(a.chain, c);
    Appended(a.out, r);
    FromAppended(a.out, a.origins, r, Pair, TeePush);
    FromAppended(a.out, a.origins, r, Pair, ChainPush);
    FromAppended(a.out, a.origins, r, Pair, Pair);
  }

  lemma {:induction false} TakeTeeBalanced(a: Account, r: Response)
    requires Balanced(a) && r.requestId.None?
    ensures Balanced(TakeTee(a, r))
  {
    Appended(a.tee, r);
    Appended(a.out, r);
    TakeTeePushes(a, r);
  }

  lemma {:induction false} TakeChainBalanced(a: Account, r: Response)
    requires Balanced(a) && r.requestId.None?
    ensures Balanced(TakeChain(a, r))
  {
    Appended(a.chain, r);
    Appended(a.out, r);
    TakeChainPushes(a, r);
  }

  lemma {:induction false} PairAppended(picks: seq<Pick>, ts: seq<Response>, cs: seq<Response>, p: Pick, t: Response,
                                        c: Response)
    requires |picks| == |ts| == |cs|
    ensures SettledAll(picks + [p], ts + [t], cs + [c]) == SettledAll(picks, ts, cs) + [Settled(p, t, c)]
    ensures MismatchesOf(picks + [p], ts + [t], cs + [c]) == MismatchesOf(picks, ts, cs) + MismatchOf(p, t, c)
  {
    var n := |picks|;
    assert (picks + [p])[..n] == picks && (ts + [t])[..n] == ts && (cs + [c])[..n] == cs;
  }

  lemma {:induction false} TakePairPaired(a: Account, p: Pick, t: Response, c: Response)
    requires Paired(a) && t.requestId.Some? && c.requestId.Some?
    ensures Paired(TakePair(a, p, t, c))
  {
    Appended(a.tee, t);
    Appended(a.chain, c);
    Appended(a.out, Settled(p, t, c));
    PairAppended(a.picks, SolicitedOf(a.tee), SolicitedOf(a.chain), p, t, c);
  }

  lemma {:induction false} TakePairBalanced(a: Account, p: Pick, t: Response, c: Response)
    requires Balanced(a) && t.requestId.Some? && c.requestId.Some?
    ensures Balanced(TakePair(a, p, t, c))
  {
    TakePairPaired(a, p, t, c);
    TakePairPushes(a, p, t, c);
  }

  /** The numbers of the pairs whose replies differ, in order. */
  function Unequal(ts: seq<Response>, cs: seq<Response>): seq<nat>
    requires |ts| == |cs|
  {
    if ts == [] then []
    else
      var n := |ts| - 1;
      Unequal(ts[..n], cs[..n]) + if Differ(ts[n], cs[n]) then [n] else []
  }

  lemma {:induction false} UnequalExactly(ts: seq<Response>, cs: seq<Response>, i: nat)
    requires |ts| == |cs| && i < |ts|
    ensures i in Unequal(ts, cs) <==> ts[i].body != cs[i].body
    ensures forall j :: 0 <= j < |Unequal(ts, cs)| ==> Unequal(ts, cs)[j] < |ts|
  {
    var n := |ts| - 1;
    if i < n {
      UnequalExactly(ts[..n], cs[..n], i);
    } else if n > 0 {
      UnequalExactly(ts[..n], cs[..n], 0);
    }
  }

  /** The handler was called for exactly the unequal pairs, once each and in order, with the two replies. */
  lemma {:induction false} HandlerCalledExactly(picks: seq<Pick>, ts: seq<Response>, cs: seq<Response>)
    requires |picks| == |ts| == |cs|
    ensures |MismatchesOf(picks, ts, cs)| == |Unequal(ts, cs)|
    ensures forall j :: 0 <= j < |Unequal(ts, cs)| ==>
      var i := Unequal(ts, cs)[j];
      && i < |ts|
      && MismatchesOf(picks, ts, cs)[j]
         == if picks[i].keep.TeeChain? then Mismatch(ts[i], cs[i]) else Mismatch(cs[i], ts[i])
  {
    if picks != [] {
      var n := |picks| - 1;
      HandlerCalledExactly(picks[..n], ts[..n], cs[..n]);
    }
  }

  // ---- one call ----------------------------------------------------------------------------------------

  /** The two queues, and the account of what has gone through them. */
  datatype Queues = Queues(tee: seq<Response>, chain: seq<Response>, account: Account)

  function PopTee(q: Queues): Queues
    requires q.tee != []
  {
    Queues(q.tee[1..], q.chain, TakeTee(q.account, q.tee[0]))
  }

  function PopChain(q: Queues): Queues
    requires q.chain != []
  {
    Queues(q.tee, q.chain[1..], TakeChain(q.account, q.chain[0]))
  }

  function PopPair(q: Queues, p: Pick): Queues
    requires q.tee != [] && q.chain != []
  {
    Queues(q.tee[1..], q.chain[1..], TakePair(q.account, p, q.tee[0], q.chain[0]))
  }

  predicate StartsWithPush(rs: seq<Response>) {
    rs != [] && rs[0].requestId.None?
  }

  /** The loop: runs while both queues have something. */
  function Drain(q: Queues, p: Pick): Queues
    decreases |q.tee| + |q.chain|
  {
    if q.tee == [] || q.chain == [] then q
    else if StartsWithPush(q.tee) then Drain(PopTee(q), p)
    else if StartsWithPush(q.chain) then Drain(PopChain(q), p)
    else Drain(PopPair(q, p), p)
  }

  /** After the loop: one push at most off each queue. */
  function Sweep(q: Queues): Queues {
    var q1 := if StartsWithPush(q.tee) then PopTee(q) else q;
    if StartsWithPush(q1.chain) then PopChain(q1) else q1
  }

  function Extended(q: Queues, tee: seq<Response>, chain: seq<Response>): Queues {
    Queues(q.tee + tee, q.chain + chain, q.account)
  }

  function Called(q: Queues, tee: seq<Response>, chain: seq<Response>, p: Pick): Queues {
    Sweep(Drain(Extended(q, tee, chain), p))
  }

  class IncomingResponses {
    var tee: seq<Response>
    var chain: seq<Response>
    ghost var account: Account

    ghost function View(): Queues
      reads this
    {
      Queues(tee, chain, account)
    }

    constructor ()
      ensures View() == Queues([], [], opening)
    {
      tee, chain, account := [], [], opening;
    }

    /** `new_responses`; `result` and `mismatches` are what the call adds to the account. */
    method NewResponses(teeResponses: seq<Response>, chainResponses: seq<Response>, p: Pick)
      returns (result: seq<Response>, mismatches: seq<Mismatch>)
      modifies this
      ensures View() == Called(old(View()), teeResponses, chainResponses, p)
      ensures account.out == old(account.out) + result
      ensures account.mismatches == old(account.mismatches) + mismatches
    {
      tee, chain := tee + teeResponses, chain + chainResponses;
      ghost var start := View();
      result, mismatches := [], [];
      while tee != [] && chain != []
        invariant Drain(View(), p) == Drain(start, p)
        invariant account.out == old(account.out) + result
        invariant account.mismatches == old(account.mismatches) + mismatches
        decreases |tee| + |chain|
      {
        if tee[0].requestId.None? {
          result := result + [tee[0]];
          account := TakeTee(account, tee[0]);
          tee := tee[1..];
          continue;
        }
        if chain[0].requestId.None? {
          result := result + [chain[0]];
          account := TakeChain(account, chain[0]);
          chain := chain[1..];
          continue;
        }
        var t, c := tee[0], chain[0];
        tee, chain := tee[1..], chain[1..];
        account := TakePair(account, p, t, c);
        var kept := if p.keep.TeeChain? then t else c;
        if t.body != c.body {
          mismatches := mismatches + [Mismatch(kept, if p.keep.TeeChain? then c else t)];
          kept := if p.behavior.FailOnMismatch? then Failure(kept) else kept;
        }
        result := result + [kept];
      }
      assert View() == Drain(start, p);
      if tee != [] && tee[0].requestId.None? {
        result := result + [tee[0]];
        account := TakeTee(account, tee[0]);
        tee := tee[1..];
      }
      if chain != [] && chain[0].requestId.None? {
        result := result + [chain[0]];
        account := TakeChain(account, chain[0]);
        chain := chain[1..];
      }
    }
  }

  // ---- every call keeps the account ---------------------------------------------------------------------

  /** Everything that ever came in from the tee: on the account, or still queued. */
  function AllTee(q: Queues): seq<Response> {
    q.account.tee + q.tee
  }

  function AllChain(q: Queues): seq<Response> {
    q.account.chain + q.chain
  }

  lemma {:induction false} FrontMoved(done: seq<Response>, rest: seq<Response>)
    requires rest != []
    ensures done + [rest[0]] + rest[1..] == done + rest
  {
  }

  /** The picks of a call all follow the choice in force during that call. */
  ghost predicate PicksFollow(before: seq<Pick>, after: seq<Pick>, p: Pick) {
    before <= after && forall i :: |before| <= i < |after| ==> after[i] == p
  }

  lemma {:induction false} DrainConserves(q: Queues, p: Pick)
    ensures AllTee(Drain(q, p)) == AllTee(q) && AllChain(Drain(q, p)) == AllChain(q)
    ensures Drain(q, p).tee == [] || Drain(q, p).chain == []
    ensures PicksFollow(q.account.picks, Drain(q, p).account.picks, p)
    decreases |q.tee| + |q.chain|
  {
    if q.tee != [] && q.chain != [] {
      FrontMoved(q.account.tee, q.tee);
      FrontMoved(q.account.chain, q.chain);
      if StartsWithPush(q.tee) {
        DrainConserves(PopTee(q), p);
      } else if StartsWithPush(q.chain) {
        DrainConserves(PopChain(q), p);
      } else {
        DrainConserves(PopPair(q, p), p);
      }
    }
  }

  lemma {:induction false} DrainBalanced(q: Queues, p: Pick)
    requires Balanced(q.account)
    ensures Balanced(Drain(q, p).account)
    decreases |q.tee| + |q.chain|
  {
    if q.tee != [] && q.chain != [] {
      if StartsWithPush(q.tee) {
        TakeTeeBalanced(q.account, q.tee[0]);
        DrainBalanced(PopTee(q), p);
      } else if StartsWithPush(q.chain) {
        TakeChainBalanced(q.account, q.chain[0]);
        DrainBalanced(PopChain(q), p);
      } else {
        TakePairBalanced(q.account, p, q.tee[0], q.chain[0]);
        DrainBalanced(PopPair(q, p), p);
      }
    }
  }

  lemma {:induction false} SweepConserves(q: Queues)
    requires q.tee == [] || q.chain == []
    ensures AllTee(Sweep(q)) == AllTee(q) && AllChain(Sweep(q)) == AllChain(q)
    ensures Sweep(q).tee == [] || Sweep(q).chain == []
    ensures Sweep(q).account.picks == q.account.picks
  {
    if StartsWithPush(q.tee) {
      FrontMoved(q.account.tee, q.tee);
    } else if StartsWithPush(q.chain) {
      FrontMoved(q.account.chain, q.chain);
    }
  }

  lemma {:induction false} SweepBalanced(q: Queues)
    requires Balanced(q.account)
    ensures Balanced(Sweep(q).account)
  {
    var q1 := if StartsWithPush(q.tee) then PopTee(q) else q;
    if StartsWithPush(q.tee) {
      TakeTeeBalanced(q.account, q.tee[0]);
    }
    if StartsWithPush(q1.chain) {
      TakeChainBalanced(q1.account, q1.chain[0]);
    }
  }

  // ---- whole runs --------------------------------------------------------------------------------------------

  datatype Call = Call(tee: seq<Response>, chain: seq<Response>, pick: Pick)

  function Run(calls: seq<Call>): Queues {
    if calls == [] then Queues([], [], opening)
    else
      var c := calls[|calls| - 1];
      Called(Run(calls[..|calls| - 1]), c.tee, c.chain, c.pick)
  }

  function TeeSeen(calls: seq<Call>): seq<Response> {
    if calls == [] then [] else TeeSeen(calls[..|calls| - 1]) + calls[|calls| - 1].tee
  }

  function ChainSeen(calls: seq<Call>): seq<Response> {
    if calls == [] then [] else ChainSeen(calls[..|calls| - 1]) + calls[|calls| - 1].chain
  }

  lemma {:induction false} CallConserves(q: Queues, c: Call)
    ensures var r := Called(q, c.tee, c.chain, c.pick);
            && AllTee(r) == AllTee(q) + c.tee && AllChain(r) == AllChain(q) + c.chain
            && (r.tee == [] || r.chain == [])
            && PicksFollow(q.account.picks, r.account.picks, c.pick)
  {
    var x := Extended(q, c.tee, c.chain);
    assert AllTee(x) == AllTee(q) + c.tee && AllChain(x) == AllChain(q) + c.chain;
    DrainConserves(x, c.pick);
    SweepConserves(Drain(x, c.pick));
  }

  /** Over every run: every reply is on the account or queued, one queue is empty, and picks follow the calls. */
  lemma {:induction false} RunConserves(calls: seq<Call>)
    ensures AllTee(Run(calls)) == TeeSeen(calls) && AllChain(Run(calls)) == ChainSeen(calls)
    ensures Run(calls).tee == [] || Run(calls).chain == []
    ensures calls != [] ==>
      PicksFollow(Run(calls[..|calls| - 1]).account.picks, Run(calls).account.picks, calls[|calls| - 1].pick)
  {
    if calls != [] {
      RunConserves(calls[..|calls| - 1]);
      CallConserves(Run(calls[..|calls| - 1]), calls[|calls| - 1]);
    }
  }

  /** Over every run the account balances. */
  lemma {:induction false} RunBalanced(calls: seq<Call>)
    ensures Balanced(Run(calls).account)
  {
    if calls != [] {
      var q, c := Run(calls[..|calls| - 1]), calls[|calls| - 1];
      RunBalanced(calls[..|calls| - 1]);
      var x := Extended(q, c.tee, c.chain);
      DrainBalanced(x, c.pick);
      SweepBalanced(Drain(x, c.pick));
    }
  }

  /**
    * After every call the replies sent on number the lesser of the two chains' totals; number i settles
    * reply i of the tee against reply i of the chain.
    */
  lemma {:induction false} SentOnInPairs(calls: seq<Call>)
    ensures var a, ts, cs := Run(calls).account, SolicitedOf(TeeSeen(calls)), SolicitedOf(ChainSeen(calls));
            && |a.picks| == Min(|ts|, |cs|)
            && SolicitedOf(a.out) == SettledAll(a.picks, ts[..|a.picks|], cs[..|a.picks|])
            && a.mismatches == MismatchesOf(a.picks, ts[..|a.picks|], cs[..|a.picks|])
  {
    RunConserves(calls);
    RunBalanced(calls);
    var q := Run(calls);
    SolicitedOfConcat(q.account.tee, q.tee);
    SolicitedOfConcat(q.account.chain, q.chain);
    var ts, cs := SolicitedOf(TeeSeen(calls)), SolicitedOf(ChainSeen(calls));
    assert ts[..|q.account.picks|] == SolicitedOf(q.account.tee);
    assert cs[..|q.account.picks|] == SolicitedOf(q.account.chain);
  }

  /** Over every run: reply number i sent on is that of the selected chain; handlers get the selected reply first. */
  lemma {:induction false} SelectedIsSent(calls: seq<Call>)
    ensures var a, ts, cs := Run(calls).account, SolicitedOf(TeeSeen(calls)), SolicitedOf(ChainSeen(calls));
            var n := |a.picks|;
            && n <= |ts| && n <= |cs| && n == |SolicitedOf(a.out)|
            && (forall i :: 0 <= i < n ==> RightlySent(a.picks[i], ts[i], cs[i], SolicitedOf(a.out)[i]))
            && |a.mismatches| == |Unequal(ts[..n], cs[..n])|
            && forall j :: 0 <= j < |a.mismatches| ==>
                 var i := Unequal(ts[..n], cs[..n])[j];
                 && i < n
                 && a.mismatches[j] == if a.picks[i].keep.TeeChain? then Mismatch(ts[i], cs[i])
                                       else Mismatch(cs[i], ts[i])
  {
    var a, ts, cs := Run(calls).account, SolicitedOf(TeeSeen(calls)), SolicitedOf(ChainSeen(calls));
    SentOnInPairs(calls);
    HandlerCalledExactly(a.picks, ts[..|a.picks|], cs[..|a.picks|]);
  }

  // ---- what stays behind -----------------------------------------------------------------------------------------

  /** What lies behind the n-th reply to a request. */
  function Behind(rs: seq<Response>, n: nat): seq<Response> {
    if n == 0 || rs == [] then rs
    else Behind(rs[1..], if rs[0].requestId.Some? then n - 1 else n)
  }

  lemma {:induction false} SolicitedFront(rs: seq<Response>)
    requires rs != []
    ensures Solicited(rs) == Solicited(rs[1..]) + if rs[0].requestId.Some? then 1 else 0
  {
    assert [rs[0]] + rs[1..] == rs && [rs[0]][..0] == [];
    SolicitedOfConcat([rs[0]], rs[1..]);
  }

  /** How many pairs the two queues hold. */
  function PairsIn(q: Queues): nat {
    Min(Solicited(q.tee), Solicited(q.chain))
  }

  /**
    * The queues when the loop ends. The tee's is all that lies behind the last pair, or has no push in front;
    * the chain's is all that lies behind the last pair, or is empty.
    */
  ghost predicate Left(t: seq<Response>, c: seq<Response>, d: Queues) {
    && (if c == [] then d.tee == t else !StartsWithPush(d.tee))
    && d.chain == if Solicited(t) == 0 then c else []
  }

  ghost predicate LeftBy(q: Queues, d: Queues) {
    Left(Behind(q.tee, PairsIn(q)), Behind(q.chain, PairsIn(q)), d)
  }

  lemma {:induction false} LeftByTeePush(q: Queues, d: Queues)
    requires StartsWithPush(q.tee) && q.chain != [] && LeftBy(PopTee(q), d)
    ensures LeftBy(q, d)
  {
    SolicitedFront(q.tee);
  }

  lemma {:induction false} LeftByChainPush(q: Queues, d: Queues)
    requires q.tee != [] && !StartsWithPush(q.tee) && StartsWithPush(q.chain) && LeftBy(PopChain(q), d)
    ensures LeftBy(q, d)
  {
    SolicitedFront(q.tee);
    SolicitedFront(q.chain);
  }

  lemma {:induction false} LeftByPair(q: Queues, p: Pick, d: Queues)
    requires q.tee != [] && q.chain != [] && !StartsWithPush(q.tee) && !StartsWithPush(q.chain)
    requires LeftBy(PopPair(q, p), d)
    ensures LeftBy(q, d)
  {
    PairPopped(q, p);
    assert Behind(q.tee, PairsIn(q)) == Behind(q.tee[1..], PairsIn(q) - 1);
    assert Behind(q.chain, PairsIn(q)) == Behind(q.chain[1..], PairsIn(q) - 1);
  }

  lemma {:induction false} PairPopped(q: Queues, p: Pick)
    requires q.tee != [] && q.chain != [] && !StartsWithPush(q.tee) && !StartsWithPush(q.chain)
    ensures PairsIn(q) == PairsIn(PopPair(q, p)) + 1
  {
    SolicitedFront(q.tee);
    SolicitedFront(q.chain);
  }

  lemma {:induction false} DrainLeaves(q: Queues, p: Pick)
    ensures LeftBy(q, Drain(q, p))
    decreases |q.tee| + |q.chain|
  {
    if q.tee != [] && q.chain != [] {
      if StartsWithPush(q.tee) {
        DrainLeaves(PopTee(q), p);
        LeftByTeePush(q, Drain(q, p));
      } else if StartsWithPush(q.chain) {
        DrainLeaves(PopChain(q), p);
        LeftByChainPush(q, Drain(q, p));
      } else {
        DrainLeaves(PopPair(q, p), p);
        LeftByPair(q, p, Drain(q, p));
      }
    }
  }

  predicate StartsWithTwoPushes(rs: seq<Response>) {
    StartsWithPush(rs) && StartsWithPush(rs[1..])
  }

  /**
    * Exactly when a push is left waiting in front of a queue, for any queues and any batches: for the tee, when
    * nothing of the chain lies behind the last pair and two pushes of the tee do; for the chain, when no reply
    * to a request of the tee lies behind the last pair and two pushes of the chain come first.
    */
  lemma {:induction false} PushLingersExactly(q: Queues, tee: seq<Response>, chain: seq<Response>, p: Pick)
    ensures var x, r := Extended(q, tee, chain), Called(q, tee, chain, p);
            var t, c := Behind(x.tee, PairsIn(x)), Behind(x.chain, PairsIn(x));
            && (StartsWithPush(r.tee) <==> c == [] && StartsWithTwoPushes(t))
            && (StartsWithPush(r.chain) <==> Solicited(t) == 0 && StartsWithTwoPushes(c))
  {
    var x := Extended(q, tee, chain);
    DrainLeaves(x, p);
    SweepLeaves(Drain(x, p));
  }

  lemma {:induction false} SweepLeaves(q: Queues)
    ensures StartsWithPush(Sweep(q).tee) <==> StartsWithTwoPushes(q.tee)
    ensures StartsWithPush(Sweep(q).chain) <==> StartsWithTwoPushes(q.chain)
  {
  }
}
