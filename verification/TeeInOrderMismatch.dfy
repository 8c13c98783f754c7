/** The requests Tee keeps for its mismatch chain, next to the queues of the in-order form. */
module TeeInOrderMismatch {
  import opened Messages
  import opened TeeReplies
  import opened TeeInOrder

  function IdSet(ids: seq<MessageId>): set<MessageId> {
    set i | 0 <= i < |ids| :: ids[i]
  }

  predicate Distinct(ids: seq<MessageId>) {
    forall i, j :: 0 <= i < j < |ids| ==> ids[i] != ids[j]
  }

  /** Replies in request order: reply i answers request i. */
  predicate Answer(ids: seq<MessageId>, rs: seq<Response>) {
    |rs| <= |ids| && forall i :: 0 <= i < |rs| ==> rs[i].requestId == Some(ids[i])
  }

  /** Some mismatch finds its request gone, when they are removed one after the other. */
  predicate Misses(requests: set<MessageId>, ms: seq<Mismatch>) {
    if ms == [] then false
    else
      var init := ms[..|ms| - 1];
      Misses(requests, init) || !(MismatchId(ms[|ms| - 1]) <= requests - MismatchIds(init))
  }

  // ---- the mismatches of a stretch of pairs -----------------------------------------------------------

  /** The mismatches of the pairs from `k` on. */
  function Later(picks: seq<Pick>, ts: seq<Response>, cs: seq<Response>, k: nat): seq<Mismatch>
    requires |picks| == |ts| == |cs| && k <= |picks|
  {
    if |picks| == k then []
    else
      var n := |picks| - 1;
      Later(picks[..n], ts[..n], cs[..n], k) + MismatchOf(picks[n], ts[n], cs[n])
  }

  lemma {:induction false} MismatchesSplit(picks: seq<Pick>, ts: seq<Response>, cs: seq<Response>, k: nat)
    requires |picks| == |ts| == |cs| && k <= |picks|
    ensures MismatchesOf(picks, ts, cs) == MismatchesOf(picks[..k], ts[..k], cs[..k]) + Later(picks, ts, cs, k)
  {
    if |picks| == k {
      assert picks[..k] == picks && ts[..k] == ts && cs[..k] == cs;
      assert MismatchesOf(picks, ts, cs) + [] == MismatchesOf(picks, ts, cs);
    } else {
      var n := |picks| - 1;
      MismatchesSplit(picks[..n], ts[..n], cs[..n], k);
      assert picks[..n][..k] == picks[..k] && ts[..n][..k] == ts[..k] && cs[..n][..k] == cs[..k];
      Regrouped(MismatchesOf(picks[..k], ts[..k], cs[..k]), Later(picks[..n], ts[..n], cs[..n], k),
                MismatchOf(picks[n], ts[n], cs[n]));
    }
  }

  lemma {:induction false} MismatchIdOf(p: Pick, t: Response, c: Response, id: MessageId)
    requires t.requestId == Some(id) && c.requestId == Some(id)
    ensures |MismatchOf(p, t, c)| <= 1 && MismatchIds(MismatchOf(p, t, c)) <= {id}
    ensures MismatchOf(p, t, c) != [] ==> MismatchId(MismatchOf(p, t, c)[0]) == {id}
  {
    var ms := MismatchOf(p, t, c);
    if ms != [] {
      assert ms[..0] == [];
    }
  }

  lemma {:induction false} AnswerPrefix(ids: seq<MessageId>, rs: seq<Response>, n: nat)
    requires Answer(ids, rs) && n <= |rs|
    ensures Answer(ids, rs[..n])
  {
  }

  lemma {:induction false} MismatchConcat(a: seq<Mismatch>, b: seq<Mismatch>)
    requires |b| <= 1
    ensures MismatchIds(a + b) == MismatchIds(a) + MismatchIds(b)
  {
    if b == [] {
      assert a + b == a;
    } else {
      assert b == [b[0]] && b[..0] == [];
      MismatchAppended(a, b[0]);
    }
  }

  /** The mismatches of pairs `k` to `n` are of requests `k` to `n`. */
  lemma {:induction false} LaterIds(ids: seq<MessageId>, picks: seq<Pick>, ts: seq<Response>, cs: seq<Response>, k: nat)
    requires |picks| == |ts| == |cs| && k <= |picks| && Answer(ids, ts) && Answer(ids, cs)
    ensures forall id :: id in MismatchIds(Later(picks, ts, cs, k)) ==>
      exists i :: k <= i < |picks| && ids[i] == id
  {
    if |picks| > k {
      var n := |picks| - 1;
      AnswerPrefix(ids, ts, n);
      AnswerPrefix(ids, cs, n);
      LaterIds(ids, picks[..n], ts[..n], cs[..n], k);
      MismatchIdOf(picks[n], ts[n], cs[n], ids[n]);
      MismatchConcat(Later(picks[..n], ts[..n], cs[..n], k), MismatchOf(picks[n], ts[n], cs[n]));
    }
  }

  lemma {:induction false} NoMissAppended(requests: set<MessageId>, ms: seq<Mismatch>, more: seq<Mismatch>,
                                          id: MessageId)
    requires !Misses(requests, ms) && |more| <= 1 && (more != [] ==> MismatchId(more[0]) == {id})
    requires id in requests && id !in MismatchIds(ms)
    ensures !Misses(requests, ms + more)
  {
    if more == [] {
      assert ms + more == ms;
    } else {
      assert (ms + more)[..|ms|] == ms;
    }
  }

  /** When the requests of a stretch of pairs are all there, its mismatches find them one after the other. */
  lemma {:induction false} LaterFound(requests: set<MessageId>, ids: seq<MessageId>, picks: seq<Pick>,
                                      ts: seq<Response>, cs: seq<Response>, k: nat)
    requires |picks| == |ts| == |cs| && k <= |picks| && Answer(ids, ts) && Answer(ids, cs) && Distinct(ids)
    requires forall i :: k <= i < |picks| ==> ids[i] in requests
    ensures !Misses(requests, Later(picks, ts, cs, k))
  {
    if |picks| > k {
      var n := |picks| - 1;
      AnswerPrefix(ids, ts, n);
      AnswerPrefix(ids, cs, n);
      LaterFound(requests, ids, picks[..n], ts[..n], cs[..n], k);
      LaterIds(ids, picks[..n], ts[..n], cs[..n], k);
      MismatchIdOf(picks[n], ts[n], cs[n], ids[n]);
      NoMissAppended(requests, Later(picks[..n], ts[..n], cs[..n], k), MismatchOf(picks[n], ts[n], cs[n]), ids[n]);
    }
  }

  // ---- whole runs -----------------------------------------------------------------------------------------

  /** One call of the transform: the requests it notes, and the replies of the two chains. */
  datatype Turn = Turn(asked: seq<MessageId>, call: Call)

  function Calls(turns: seq<Turn>): (calls: seq<Call>)
    ensures |calls| == |turns|
  {
    if turns == [] then [] else Calls(turns[..|turns| - 1]) + [turns[|turns| - 1].call]
  }

  function Asked(turns: seq<Turn>): seq<MessageId> {
    if turns == [] then [] else Asked(turns[..|turns| - 1]) + turns[|turns| - 1].asked
  }

  function Mismatches(turns: seq<Turn>): seq<Mismatch> {
    Run(Calls(turns)).account.mismatches
  }

  /** The mismatches of the last call. */
  function NewMismatches(turns: seq<Turn>): seq<Mismatch>
    requires turns != []
  {
    var before := |Mismatches(turns[..|turns| - 1])|;
    if before <= |Mismatches(turns)| then Mismatches(turns)[before..] else []
  }

  /** The requests kept, and whether one to be removed was ever not there. */
  function Requests(turns: seq<Turn>): set<MessageId> {
    if turns == [] then {}
    else
      Requests(turns[..|turns| - 1]) + IdSet(turns[|turns| - 1].asked) - MismatchIds(NewMismatches(turns))
  }

  predicate Missed(turns: seq<Turn>) {
    if turns == [] then false
    else
      var init := turns[..|turns| - 1];
      Missed(init) || Misses(Requests(init) + IdSet(turns[|turns| - 1].asked), NewMismatches(turns))
  }

  /** Both chains answer in request order, and never before they were asked. */
  ghost predicate InRequestOrder(turns: seq<Turn>) {
    && (turns != [] ==> InRequestOrder(turns[..|turns| - 1]))
    && Answer(Asked(turns), SolicitedOf(TeeSeen(Calls(turns))))
    && Answer(Asked(turns), SolicitedOf(ChainSeen(Calls(turns))))
  }

  /** Where a run stands: its first `n` pairs, settled by `picks`. */
  ghost predicate Settlement(turns: seq<Turn>, picks: seq<Pick>, ts: seq<Response>, cs: seq<Response>) {
    && |picks| == |ts| == |cs|
    && ts <= SolicitedOf(TeeSeen(Calls(turns))) && cs <= SolicitedOf(ChainSeen(Calls(turns)))
    && Run(Calls(turns)).account.picks == picks
    && Mismatches(turns) == MismatchesOf(picks, ts, cs)
  }

  lemma {:induction false} Standing(turns: seq<Turn>) returns (picks: seq<Pick>, ts: seq<Response>, cs: seq<Response>)
    ensures Settlement(turns, picks, ts, cs)
  {
    SentOnInPairs(Calls(turns));
    picks := Run(Calls(turns)).account.picks;
    ts := SolicitedOf(TeeSeen(Calls(turns)))[..|picks|];
    cs := SolicitedOf(ChainSeen(Calls(turns)))[..|picks|];
  }

  lemma {:induction false} CallsAppended(turns: seq<Turn>)
    requires turns != []
    ensures var init, calls := Calls(turns[..|turns| - 1]), Calls(turns);
            && calls[..|calls| - 1] == init
            && SolicitedOf(TeeSeen(init)) <= SolicitedOf(TeeSeen(calls))
            && SolicitedOf(ChainSeen(init)) <= SolicitedOf(ChainSeen(calls))
            && Run(init).account.picks <= Run(calls).account.picks
  {
    var init, calls := Calls(turns[..|turns| - 1]), Calls(turns);
    assert calls[..|calls| - 1] == init;
    SolicitedOfConcat(TeeSeen(init), calls[|calls| - 1].tee);
    SolicitedOfConcat(ChainSeen(init), calls[|calls| - 1].chain);
    RunConserves(calls);
  }

  /** A call adds the mismatches of the pairs it settles. */
  lemma {:induction false} NewAreLater(turns: seq<Turn>)
    returns (picks: seq<Pick>, ts: seq<Response>, cs: seq<Response>, k: nat)
    requires turns != []
    ensures Settlement(turns, picks, ts, cs) && k <= |picks|
    ensures k == |Run(Calls(turns[..|turns| - 1])).account.picks|
    ensures Mismatches(turns) == Mismatches(turns[..|turns| - 1]) + Later(picks, ts, cs, k)
    ensures NewMismatches(turns) == Later(picks, ts, cs, k)
    ensures Mismatches(turns[..|turns| - 1]) == MismatchesOf(picks[..k], ts[..k], cs[..k])
  {
    picks, ts, cs := Standing(turns);
    var picks0, ts0, cs0 := Standing(turns[..|turns| - 1]);
    k := |picks0|;
    CallsAppended(turns);
    assert picks[..k] == picks0 && ts[..k] == ts0 && cs[..k] == cs0;
    MismatchesSplit(picks, ts, cs, k);
  }

  lemma {:induction false} MismatchIdsConcat(a: seq<Mismatch>, b: seq<Mismatch>)
    ensures MismatchIds(a + b) == MismatchIds(a) + MismatchIds(b)
  {
    if b == [] {
      assert a + b == a;
    } else {
      MismatchIdsConcat(a, b[..|b| - 1]);
      assert (a + b)[..|a + b| - 1] == a + b[..|b| - 1];
    }
  }

  lemma {:induction false} IdSetConcat(a: seq<MessageId>, b: seq<MessageId>)
    ensures IdSet(a + b) == IdSet(a) + IdSet(b)
  {
    forall id | id in IdSet(a) + IdSet(b) ensures id in IdSet(a + b) {
      if id in IdSet(a) {
        var i :| 0 <= i < |a| && a[i] == id;
        assert (a + b)[i] == id;
      } else {
        var i :| 0 <= i < |b| && b[i] == id;
        assert (a + b)[|a| + i] == id;
      }
    }
  }

  /** What was mismatched earlier is of other requests than what comes up now. */
  lemma {:induction false} EarlierIds(ids: seq<MessageId>, picks: seq<Pick>, ts: seq<Response>, cs: seq<Response>,
                                      k: nat)
    requires |picks| == |ts| == |cs| && k <= |picks| && Answer(ids, ts) && Answer(ids, cs) && Distinct(ids)
    ensures forall i :: k <= i < |ids| ==> ids[i] !in MismatchIds(MismatchesOf(picks[..k], ts[..k], cs[..k]))
  {
    AnswerPrefix(ids, ts, k);
    AnswerPrefix(ids, cs, k);
    LaterIds(ids, picks[..k], ts[..k], cs[..k], 0);
    MismatchesSplit(picks[..k], ts[..k], cs[..k], 0);
    var none := MismatchesOf(picks[..k][..0], ts[..k][..0], cs[..k][..0]);
    assert none == [] && [] + Later(picks[..k], ts[..k], cs[..k], 0) == Later(picks[..k], ts[..k], cs[..k], 0);
  }

  lemma {:induction false} StillThere(ids: seq<MessageId>, requests: set<MessageId>, k: nat, gone: set<MessageId>)
    requires IdSet(ids) - gone <= requests
    requires forall i :: k <= i < |ids| ==> ids[i] !in gone
    ensures forall i :: k <= i < |ids| ==> ids[i] in requests
  {
    assert forall i :: 0 <= i < |ids| ==> ids[i] in IdSet(ids);
  }

  lemma {:induction false} NewUntouched(earlier: seq<MessageId>, asked: seq<MessageId>, k: nat, gone: set<MessageId>)
    requires k <= |earlier|
    requires forall i :: k <= i < |earlier + asked| ==> (earlier + asked)[i] !in gone
    ensures IdSet(asked) !! gone
  {
    forall id | id in IdSet(asked) ensures id !in gone {
      var i :| 0 <= i < |asked| && asked[i] == id;
      assert (earlier + asked)[|earlier| + i] == id;
    }
  }

  lemma {:induction false} SettledWereAsked(turns: seq<Turn>, picks: seq<Pick>, ts: seq<Response>, cs: seq<Response>)
    requires InRequestOrder(turns) && Settlement(turns, picks, ts, cs)
    ensures Answer(Asked(turns), ts) && Answer(Asked(turns), cs)
  {
  }

  /** The last call's mismatches find their requests, and none of the requests it notes was mismatched before. */
  lemma {:induction false} TurnFinds(turns: seq<Turn>, kept: set<MessageId>)
    requires turns != [] && InRequestOrder(turns) && Distinct(Asked(turns))
    requires var init := turns[..|turns| - 1]; kept == IdSet(Asked(init)) - MismatchIds(Mismatches(init))
    ensures var init, asked := turns[..|turns| - 1], turns[|turns| - 1].asked;
            && !Misses(kept + IdSet(asked), NewMismatches(turns))
            && IdSet(asked) !! MismatchIds(Mismatches(init))
            && Mismatches(turns) == Mismatches(init) + NewMismatches(turns)
  {
    var init, asked := turns[..|turns| - 1], turns[|turns| - 1].asked;
    var picks, ts, cs, k := NewAreLater(turns);
    PairsWereAsked(init);
    SettledWereAsked(turns, picks, ts, cs);
    StretchFinds(Asked(init), asked, kept, picks, ts, cs, k);
  }

  lemma {:induction false} StretchFinds(earlier: seq<MessageId>, asked: seq<MessageId>, kept: set<MessageId>,
                                        picks: seq<Pick>, ts: seq<Response>, cs: seq<Response>, k: nat)
    requires |picks| == |ts| == |cs| && k <= |picks| && k <= |earlier|
    requires Answer(earlier + asked, ts) && Answer(earlier + asked, cs) && Distinct(earlier + asked)
    requires kept == IdSet(earlier) - MismatchIds(MismatchesOf(picks[..k], ts[..k], cs[..k]))
    ensures !Misses(kept + IdSet(asked), Later(picks, ts, cs, k))
    ensures IdSet(asked) !! MismatchIds(MismatchesOf(picks[..k], ts[..k], cs[..k]))
  {
    var ids, gone := earlier + asked, MismatchIds(MismatchesOf(picks[..k], ts[..k], cs[..k]));
    EarlierIds(ids, picks, ts, cs, k);
    NewUntouched(earlier, asked, k, gone);
    IdSetConcat(earlier, asked);
    StillThere(ids, kept + IdSet(asked), k, gone);
    LaterFound(kept + IdSet(asked), ids, picks, ts, cs, k);
  }

  lemma {:induction false} PairsWereAsked(turns: seq<Turn>)
    requires InRequestOrder(turns)
    ensures |Run(Calls(turns)).account.picks| <= |Asked(turns)|
  {
    var picks, ts, cs := Standing(turns);
  }

  lemma {:induction false} BooksBalance(asked0: set<MessageId>, asked: set<MessageId>, gone0: set<MessageId>,
                                        gone: set<MessageId>)
    requires asked !! gone0
    ensures (asked0 - gone0) + asked - gone == (asked0 + asked) - (gone0 + gone)
  {
  }

  /**
    * When both chains answer in request order and ids are not reused, the removal of a mismatched request never
    * misses in the in-order form either.
    */
  lemma {:induction false} RemovalNeverMissesInOrder(turns: seq<Turn>)
    requires InRequestOrder(turns) && Distinct(Asked(turns))
    ensures !Missed(turns) && Requests(turns) == IdSet(Asked(turns)) - MismatchIds(Mismatches(turns))
  {
    if turns == [] {
      assert IdSet(Asked(turns)) == {};
    } else {
      var init, asked := turns[..|turns| - 1], turns[|turns| - 1].asked;
      assert forall i :: 0 <= i < |Asked(init)| ==> Asked(init)[i] == Asked(turns)[i];
      RemovalNeverMissesInOrder(init);
      TurnFinds(turns, Requests(init));
      IdSetConcat(Asked(init), asked);
      MismatchIdsConcat(Mismatches(init), NewMismatches(turns));
      BooksBalance(IdSet(Asked(init)), IdSet(asked), MismatchIds(Mismatches(init)), MismatchIds(NewMismatches(turns)));
    }
  }
}
