/** How Tee settles a pair of replies, one from each chain. */
module TeeReplies {
  import opened Messages

  datatype ResultSource = RegularChain | TeeChain

  /** What a mismatch does to the reply that is kept: replace it with an error, or nothing. */
  datatype Behavior = FailOnMismatch | SubchainOnMismatch | LogWarningOnMismatch

  /** Two replies are equal when their contents are; the ids they carry are not compared. */
  predicate Differ(a: Response, b: Response) {
    a.body != b.body
  }

  /** An error in place of `r`, to the same request. */
  function Failure(r: Response): Response {
    Response(r.requestId, Content(-1))
  }

  /** The choice in force when a pair was formed. */
  datatype Pick = Pick(keep: ResultSource, behavior: Behavior)

  function Kept(p: Pick, t: Response, c: Response): Response {
    if p.keep.TeeChain? then t else c
  }

  function Dropped(p: Pick, t: Response, c: Response): Response {
    if p.keep.TeeChain? then c else t
  }

  /** What is sent on for a pair. */
  function Settled(p: Pick, t: Response, c: Response): Response {
    if Differ(t, c) && p.behavior.FailOnMismatch? then Failure(Kept(p, t, c)) else Kept(p, t, c)
  }

  /** The arguments of one call of the mismatch handler. */
  datatype Mismatch = Mismatch(kept: Response, other: Response)

  function MismatchOf(p: Pick, t: Response, c: Response): seq<Mismatch> {
    if Differ(t, c) then [Mismatch(Kept(p, t, c), Dropped(p, t, c))] else []
  }

  /** The reply of the chain that is selected, or an error in its place if the two differ and that is to fail. */
  predicate RightlySent(p: Pick, t: Response, c: Response, sent: Response) {
    match p.keep
    case TeeChain =>
      sent == if p.behavior.FailOnMismatch? && t.body != c.body then Response(t.requestId, Content(-1)) else t
    case RegularChain =>
      sent == if p.behavior.FailOnMismatch? && t.body != c.body then Response(c.requestId, Content(-1)) else c
  }

  lemma {:induction false} SettledRightly(p: Pick, t: Response, c: Response)
    ensures RightlySent(p, t, c, Settled(p, t, c))
  {
  }

  /** The request of a mismatch. */
  function MismatchId(m: Mismatch): set<MessageId> {
    if m.kept.requestId.Some? then {m.kept.requestId.value} else {}
  }

  function MismatchIds(ms: seq<Mismatch>): set<MessageId> {
    if ms == [] then {} else MismatchIds(ms[..|ms| - 1]) + MismatchId(ms[|ms| - 1])
  }

  lemma {:induction false} MismatchAppended(ms: seq<Mismatch>, m: Mismatch)
    ensures MismatchIds(ms + [m]) == MismatchIds(ms) + MismatchId(m)
  {
    assert (ms + [m])[..|ms|] == ms;
  }
}
