/**
 * The three parties of a sink connection: the handle the transform holds, the reader task and the
 * writer task.  They share two message channels, a one-place error channel, an atomic count of
 * pending requests, and two wake-ups that each store at most one permit.
 */
module SinkProtocol {
  import opened Messages

  datatype ConnError = OtherSideClosed | ShotoverClosed | MessageDecode | MessageEncode | Io | ReadTimeout

  type Batch = seq<Response>

  /** Capacity of the channel that carries replies to the handle. */
  const inCapacity := 10_000

  datatype Reader =
    | Top                                 // about to load the pending count
    | Select(pendingSeen: bool)           // waiting; the timeout is armed if pendingSeen
    | Got(batch: Batch)                   // a batch is decoded, the count not yet lowered
    | Pushing(batch: Batch)               // waiting for room in the channel
    | Nudging                             // pushed, the chain not yet notified
    | Erring(err: ConnError)              // reader_task returned Err
    | Reported                            // the error is in the error channel, in_tx still held
    | Dropped                             // in_tx is gone, the chain not yet notified
    | ReaderDone

  datatype Writer =
    | Idle
    | Added(batch: seq<Request>)          // the count is raised, the reader not yet notified
    | Writing(sending: seq<Request>, next: nat)   // requests before `next` are on the wire
    | Failing(error: ConnError)
    | Told
    | WriterDone

  datatype Handle =
    | Ready
    | Draining(blocking: bool, got: bool) // inside the loop of try_recv_into; got: it has taken a batch
    | Awaiting                            // recv_into, waiting on the channel
    | Gone

  /** Who took the error out of the error channel. */
  datatype Finder = Nobody | FoundBySend | FoundByGetError | FoundByReceive

  datatype State = State(
    timeoutSet: bool,
    inQ: seq<Batch>, inOpen: bool,
    outQ: seq<seq<Request>>, outOpen: bool,
    errorQ: Option<ConnError>,
    count: int, permit: bool, forceRun: bool,
    reader: Reader, writer: Writer, handle: Handle,
    error: Option<ConnError>,
    // bookkeeping that the code does not keep
    pushed: seq<Batch>, delivered: seq<Batch>,
    outstanding: int, leaked: nat,
    unwraps: nat, unwrapFailed: bool, finder: Finder)

  function Init(timeoutSet: bool): State {
    State(timeoutSet, [], true, [], true, None, 0, false, false, Top, Idle, Ready, None,
          [], [], 0, 0, 0, false, Nobody)
  }

  datatype ReaderAction =
    | LoadCount | SeeHandleGone | ReadBatch(batch: Batch) | LowerCount | PushBatch | PushFails | Nudge
    | ReadFails(err: ConnError) | RespondAndClose(messages: seq<Request>) | TakePermit | Timeout
    | ReportError | DropIn | NudgeLast

  datatype WriterAction =
    | TakeBatch | NotifyReader | WriteOne | WriteDone | WriteFails(err: ConnError) | TellError | DropOut | SendersGone

  datatype HandleAction =
    | Send(requests: seq<Request>) | GetError | TryRecv(blocking: bool) | RunChain
    | Pop | FoundEmpty(dummies: bool) | FoundClosed | AwaitPop | AwaitClosed
    | CancelReceive                       // the future of recv_into is dropped while it waits, as a timeout does
    | DropHandle

  datatype Action = ByReader(r: ReaderAction) | ByWriter(w: WriterAction) | ByHandle(h: HandleAction)

  predicate HandleAlive(s: State) {
    !s.handle.Gone?
  }

  /** The reader task still owns its clone of `out_tx`. */
  predicate ReaderHoldsOut(s: State) {
    s.reader.Top? || s.reader.Select? || s.reader.Got? || s.reader.Pushing? || s.reader.Nudging?
  }

  // The select! of the reader is biased: a dropped handle first, then a reply, then a wake-up, then the timeout.
  predicate ReaderEnabled(s: State, a: ReaderAction) {
    match a
    case LoadCount => s.reader.Top?
    case SeeHandleGone => s.reader.Select? && !HandleAlive(s)
    case ReadBatch(batch) => s.reader.Select? && HandleAlive(s) && Solicited(batch) <= s.outstanding
    case LowerCount => s.reader.Got?
    case PushBatch => s.reader.Pushing? && HandleAlive(s) && |s.inQ| < inCapacity
    case PushFails => s.reader.Pushing? && !HandleAlive(s)
    case Nudge => s.reader.Nudging?
    case ReadFails(err) => s.reader.Select? && HandleAlive(s)
    case RespondAndClose(_) => s.reader.Select? && HandleAlive(s)
    case TakePermit => s.reader.Select? && HandleAlive(s) && s.permit
    case Timeout => s.reader.Select? && s.reader.pendingSeen && s.timeoutSet && HandleAlive(s) && !s.permit
    case ReportError => s.reader.Erring?
    case DropIn => s.reader.Reported?
    case NudgeLast => s.reader.Dropped?
  }

  predicate WriterEnabled(s: State, a: WriterAction) {
    match a
    case TakeBatch => s.writer.Idle? && s.outQ != []
    case NotifyReader => s.writer.Added?
    case WriteOne => s.writer.Writing? && s.writer.next < |s.writer.sending|
    case WriteDone => s.writer.Writing? && s.writer.next >= |s.writer.sending|
    case WriteFails(err) => s.writer.Writing?
    case TellError => s.writer.Failing?
    case DropOut => s.writer.Told?
    case SendersGone => s.writer.Idle? && s.outQ == [] && !HandleAlive(s) && !ReaderHoldsOut(s)
  }

  predicate HandleEnabled(s: State, a: HandleAction) {
    match a
    case Send(_) => s.handle.Ready?
    case GetError => s.handle.Ready?
    case TryRecv(_) => s.handle.Ready? && s.error.None?
    case RunChain => s.handle.Ready? && s.error.None? && s.forceRun
    case Pop => s.handle.Draining? && s.inQ != []
    case FoundEmpty(_) => s.handle.Draining? && s.inQ == [] && s.inOpen
    case FoundClosed => s.handle.Draining? && s.inQ == [] && !s.inOpen
    case AwaitPop => s.handle.Awaiting? && s.inQ != []
    case AwaitClosed => s.handle.Awaiting? && s.inQ == [] && !s.inOpen
    case CancelReceive => s.handle.Awaiting?
    case DropHandle => s.handle.Ready? || s.handle.Awaiting?
  }

  predicate Enabled(s: State, a: Action) {
    match a
    case ByReader(r) => ReaderEnabled(s, r)
    case ByWriter(w) => WriterEnabled(s, w)
    case ByHandle(h) => HandleEnabled(s, h)
  }

  /** `get_error_for_close` on a receive: takes the error out of the channel and unwraps it. */
  function ErrorForClose(s: State): State {
    s.(error := s.errorQ, errorQ := None, unwraps := s.unwraps + 1,
       unwrapFailed := s.unwrapFailed || s.errorQ.None?, finder := FoundByReceive)
  }

  /** `try_send` on the one-place error channel: a second error is thrown away. */
  function Report(s: State, err: ConnError): State {
    s.(errorQ := if s.errorQ.None? then Some(err) else s.errorQ)
  }

  function ReaderStep(s: State, a: ReaderAction): (t: State)
    requires ReaderEnabled(s, a)
    ensures t.delivered == s.delivered && t.error == s.error && t.handle == s.handle
    ensures t.writer == s.writer && t.leaked == s.leaked
    ensures t.pushed == if a.PushBatch? then s.pushed + [s.reader.batch] else s.pushed
    ensures t.outQ == if a.RespondAndClose? && s.outOpen then s.outQ + [a.messages] else s.outQ
  {
    match a
    case LoadCount => s.(reader := Select(s.count != 0))
    case SeeHandleGone => s.(reader := ReaderDone, inOpen := false)
    case ReadBatch(batch) => s.(reader := Got(batch), outstanding := s.outstanding - Solicited(batch))
    case LowerCount => s.(reader := Pushing(s.reader.batch), count := s.count - Solicited(s.reader.batch))
    case PushBatch => s.(reader := Nudging, inQ := s.inQ + [s.reader.batch], pushed := s.pushed + [s.reader.batch])
    case PushFails => s.(reader := ReaderDone, inOpen := false)
    case Nudge => s.(reader := Top, forceRun := true)
    case ReadFails(err) => s.(reader := Erring(err))
    case RespondAndClose(messages) =>
      s.(reader := Erring(ShotoverClosed), outQ := if s.outOpen then s.outQ + [messages] else s.outQ)
    case TakePermit => s.(reader := Top, permit := false)
    case Timeout => s.(reader := Erring(ReadTimeout))
    case ReportError => Report(s, s.reader.err).(reader := Reported)
    case DropIn => s.(reader := Dropped, inOpen := false)
    case NudgeLast => s.(reader := ReaderDone, forceRun := true)
  }

  function WriterStep(s: State, a: WriterAction): (t: State)
    requires WriterEnabled(s, a)
    ensures t.delivered == s.delivered && t.error == s.error && t.handle == s.handle
    ensures t.pushed == s.pushed && t.outQ == if a.TakeBatch? then s.outQ[1..] else s.outQ
  {
    match a
    case TakeBatch =>
      s.(writer := Added(s.outQ[0]), outQ := s.outQ[1..], count := s.count + |s.outQ[0]|)
    case NotifyReader => s.(writer := Writing(s.writer.batch, 0), permit := true)
    case WriteOne =>
      var dummy := s.writer.sending[s.writer.next].responseIsDummy;
      s.(writer := Writing(s.writer.sending, s.writer.next + 1),
         leaked := if dummy then s.leaked + 1 else s.leaked,
         outstanding := if dummy then s.outstanding else s.outstanding + 1)
    case WriteDone => s.(writer := Idle)
    case WriteFails(err) => s.(writer := Failing(err), leaked := s.leaked + Unwritten(s.writer))
    case TellError => Report(s, s.writer.error).(writer := Told)
    case DropOut => s.(writer := WriterDone, outOpen := false)
    case SendersGone => s.(writer := WriterDone, outOpen := false)
  }

  /** `send`: on a closed channel it calls `get_error_for_close` too. */
  function SendStep(s: State, requests: seq<Request>): State {
    var refused := s.error.None? && !s.outOpen;
    s.(outQ := if s.error.None? && s.outOpen then s.outQ + [requests] else s.outQ,
       error := if refused then s.errorQ else s.error, errorQ := if refused then None else s.errorQ,
       unwraps := if refused then s.unwraps + 1 else s.unwraps,
       unwrapFailed := s.unwrapFailed || (refused && s.errorQ.None?),
       finder := if refused then FoundBySend else s.finder)
  }

  function HandleStep(s: State, a: HandleAction): (t: State)
    requires HandleEnabled(s, a)
    ensures t.reader == s.reader && t.writer == s.writer && t.permit == s.permit && t.pushed == s.pushed
    ensures t.count == s.count && t.outstanding == s.outstanding && t.leaked == s.leaked
    ensures t.outQ == if a.Send? && s.error.None? && s.outOpen then s.outQ + [a.requests] else s.outQ
  {
    match a
    case Send(requests) => SendStep(s, requests)
    case GetError =>
      var found := s.error.None? && s.errorQ.Some?;
      s.(error := if found then s.errorQ else s.error, errorQ := if found then None else s.errorQ,
         finder := if found then FoundByGetError else s.finder)
    case TryRecv(blocking) => s.(handle := Draining(blocking, false))
    case RunChain => s.(handle := Draining(false, false), forceRun := false)
    case Pop =>
      s.(handle := Draining(s.handle.blocking, true), inQ := s.inQ[1..], delivered := s.delivered + [s.inQ[0]])
    case FoundEmpty(dummies) =>
      s.(handle := if s.handle.blocking && !s.handle.got && !dummies then Awaiting else Ready)
    case FoundClosed => ErrorForClose(s).(handle := Ready)
    case AwaitPop => s.(handle := Ready, inQ := s.inQ[1..], delivered := s.delivered + [s.inQ[0]])
    case AwaitClosed => ErrorForClose(s).(handle := Ready)
    case CancelReceive => s.(handle := Ready)
    case DropHandle => s.(handle := Gone)
  }

  function Apply(s: State, a: Action): State
    requires Enabled(s, a)
  {
    match a
    case ByReader(r) => ReaderStep(s, r)
    case ByWriter(w) => WriterStep(s, w)
    case ByHandle(h) => HandleStep(s, h)
  }

  // ---- runs ------------------------------------------------------------------------------

  /** The state a run from `s` ends in; `None` if one of its actions was not possible. */
  function Play(s: State, actions: seq<Action>): Option<State> {
    if actions == [] then Some(s)
    else
      var before, a := Play(s, actions[..|actions| - 1]), actions[|actions| - 1];
      if before.Some? && Enabled(before.value, a) then Some(Apply(before.value, a)) else None
  }

  ghost predicate Reachable(s: State) {
    exists timeoutSet, actions :: Play(Init(timeoutSet), actions) == Some(s)
  }

  // ---- the error handshake ---------------------------------------------------------------

  /** As long as somebody can still ask, a closed channel comes with a reason. */
  ghost predicate Handshake(s: State) {
    && !s.unwrapFailed
    && (s.error.Some? <==> !s.finder.Nobody?)
    && s.unwraps == (if s.finder.FoundBySend? || s.finder.FoundByReceive? then 1 else 0)
    && (s.reader.Reported? || s.reader.Dropped? || s.writer.Told? ==> s.errorQ.Some? || s.error.Some?)
    && (s.inOpen <==> !(s.reader.Dropped? || s.reader.ReaderDone?))
    && (s.outOpen <==> !s.writer.WriterDone?)
    && (HandleAlive(s) && (s.reader.ReaderDone? || s.writer.WriterDone?) ==> s.errorQ.Some? || s.error.Some?)
    && (s.handle.Draining? || s.handle.Awaiting? ==> s.error.None?)
  }

  /** Replies are first in, first out; a receive that finds the error has nothing left to deliver. */
  ghost predicate Fifo(s: State) {
    && s.pushed == s.delivered + s.inQ
    && (s.finder.FoundByReceive? ==> s.inQ == [] && !s.inOpen)
    && (!s.inOpen ==> s.reader.Dropped? || s.reader.ReaderDone?)
  }

  /** No reply and no closure is stranded: the chain has been, or is about to be, told. */
  ghost predicate Woken(s: State) {
    && (s.handle.Ready? || s.handle.Awaiting? ==>
          && (s.inQ != [] && s.error.None? ==> s.forceRun || s.reader.Nudging?)
          && (!s.inOpen && s.error.None? ==> s.forceRun || s.reader.Dropped?))
  }

  // ---- the pending count -------------------------------------------------------------------

  /** Requests the writer has counted but not yet written. */
  function Unwritten(w: Writer): nat {
    match w
    case Added(batch) => |batch|
    case Writing(sending, next) => if next <= |sending| then |sending| - next else 0
    case _ => 0
  }

  /** Replies the reader has decoded but not yet taken off the count. */
  function Uncounted(r: Reader): nat {
    match r
    case Got(batch) => Solicited(batch)
    case _ => 0
  }

  ghost predicate Counted(s: State) {
    && s.outstanding >= 0
    && s.count == s.outstanding + s.leaked + Unwritten(s.writer) + Uncounted(s.reader)
    && (s.reader.Select? && !s.reader.pendingSeen && !s.permit && !s.writer.Added? ==> s.count == 0)
    && (s.reader.Select? && !s.reader.pendingSeen && !s.permit ==> s.outstanding == 0)
    && (s.reader.Select? && s.reader.pendingSeen ==> s.count > 0)
  }

  ghost predicate Inv(s: State) {
    Handshake(s) && Fifo(s) && Woken(s) && Counted(s)
  }

  /** The reader goes on reading, or starts to fail: neither its channel nor the error is touched. */
  lemma {:induction false} ReadingKeepsHandshake(s: State, t: State)
    requires Handshake(s) && ReaderHoldsOut(s) && (ReaderHoldsOut(t) || t.reader.Erring?)
    requires t.handle == s.handle && t.writer == s.writer && t.inOpen == s.inOpen && t.outOpen == s.outOpen
    requires t.error == s.error && t.errorQ == s.errorQ && t.finder == s.finder
    requires t.unwraps == s.unwraps && t.unwrapFailed == s.unwrapFailed
    ensures Handshake(t)
  {
  }

  lemma {:induction false} LeavingKeepsHandshake(s: State, a: ReaderAction)
    requires Handshake(s) && ReaderEnabled(s, a) && (a.SeeHandleGone? || a.PushFails?)
    ensures Handshake(ReaderStep(s, a))
  {
  }

  lemma {:induction false} ClosingKeepsHandshake(s: State, a: ReaderAction)
    requires Handshake(s) && ReaderEnabled(s, a) && (a.ReportError? || a.DropIn? || a.NudgeLast?)
    ensures Handshake(ReaderStep(s, a))
  {
    match a
    case ReportError =>
    case DropIn =>
    case NudgeLast =>
  }

  lemma {:induction false} ReaderKeepsHandshake(s: State, a: ReaderAction)
    requires Handshake(s) && ReaderEnabled(s, a)
    ensures Handshake(ReaderStep(s, a))
  {
    if a.SeeHandleGone? || a.PushFails? {
      LeavingKeepsHandshake(s, a);
    } else if a.ReportError? || a.DropIn? || a.NudgeLast? {
      ClosingKeepsHandshake(s, a);
    } else {
      ReadingKeepsHandshake(s, ReaderStep(s, a));
    }
  }

  lemma {:induction false} WriterKeepsHandshake(s: State, a: WriterAction)
    requires Handshake(s) && WriterEnabled(s, a)
    ensures Handshake(WriterStep(s, a))
  {
  }

  lemma {:induction false} HandleKeepsHandshake(s: State, a: HandleAction)
    requires Handshake(s) && HandleEnabled(s, a)
    ensures Handshake(HandleStep(s, a))
  {
  }

  lemma {:induction false} ReaderKeepsFifo(s: State, a: ReaderAction)
    requires Handshake(s) && Fifo(s) && ReaderEnabled(s, a)
    ensures Fifo(ReaderStep(s, a))
  {
    if a.PushBatch? {
      assert s.pushed + [s.reader.batch] == s.delivered + (s.inQ + [s.reader.batch]);
    }
  }

  lemma {:induction false} WriterKeepsFifo(s: State, a: WriterAction)
    requires Handshake(s) && Fifo(s) && WriterEnabled(s, a)
    ensures Fifo(WriterStep(s, a))
  {
  }

  lemma {:induction false} HandleKeepsFifo(s: State, a: HandleAction)
    requires Handshake(s) && Fifo(s) && HandleEnabled(s, a)
    ensures Fifo(HandleStep(s, a))
  {
    if a.Pop? || a.AwaitPop? {
      assert s.delivered + s.inQ == (s.delivered + [s.inQ[0]]) + s.inQ[1..];
    }
  }

  lemma {:induction false} ReaderKeepsWoken(s: State, a: ReaderAction)
    requires Handshake(s) && Woken(s) && ReaderEnabled(s, a)
    ensures Woken(ReaderStep(s, a))
  {
  }

  lemma {:induction false} WriterKeepsWoken(s: State, a: WriterAction)
    requires Handshake(s) && Woken(s) && WriterEnabled(s, a)
    ensures Woken(WriterStep(s, a))
  {
  }

  lemma {:induction false} HandleKeepsWoken(s: State, a: HandleAction)
    requires Handshake(s) && Woken(s) && HandleEnabled(s, a)
    ensures Woken(HandleStep(s, a))
  {
  }

  lemma {:induction false} ReaderKeepsCounted(s: State, a: ReaderAction)
    requires Counted(s) && ReaderEnabled(s, a)
    ensures Counted(ReaderStep(s, a))
  {
  }

  lemma {:induction false} WriterKeepsCounted(s: State, a: WriterAction)
    requires Counted(s) && WriterEnabled(s, a)
    ensures Counted(WriterStep(s, a))
  {
  }

  lemma {:induction false} CountUntouched(s: State, t: State)
    requires Counted(s) && t.reader == s.reader && t.writer == s.writer && t.permit == s.permit
    requires t.count == s.count && t.outstanding == s.outstanding && t.leaked == s.leaked
    ensures Counted(t)
  {
  }

  lemma {:induction false} HandleKeepsCounted(s: State, a: HandleAction)
    requires Counted(s) && HandleEnabled(s, a)
    ensures Counted(HandleStep(s, a))
  {
    CountUntouched(s, HandleStep(s, a));
  }

  lemma {:induction false} StepKeepsHandshake(s: State, a: Action)
    requires Handshake(s) && Enabled(s, a)
    ensures Handshake(Apply(s, a))
  {
    match a
    case ByReader(r) => ReaderKeepsHandshake(s, r);
    case ByWriter(w) => WriterKeepsHandshake(s, w);
    case ByHandle(h) => HandleKeepsHandshake(s, h);
  }

  lemma {:induction false} StepKeepsFifo(s: State, a: Action)
    requires Handshake(s) && Fifo(s) && Enabled(s, a)
    ensures Fifo(Apply(s, a))
  {
    match a
    case ByReader(r) => ReaderKeepsFifo(s, r);
    case ByWriter(w) => WriterKeepsFifo(s, w);
    case ByHandle(h) => HandleKeepsFifo(s, h);
  }

  lemma {:induction false} StepKeepsWoken(s: State, a: Action)
    requires Handshake(s) && Woken(s) && Enabled(s, a)
    ensures Woken(Apply(s, a))
  {
    match a
    case ByReader(r) => ReaderKeepsWoken(s, r);
    case ByWriter(w) => WriterKeepsWoken(s, w);
    case ByHandle(h) => HandleKeepsWoken(s, h);
  }

  lemma {:induction false} StepKeepsCounted(s: State, a: Action)
    requires Counted(s) && Enabled(s, a)
    ensures Counted(Apply(s, a))
  {
    match a
    case ByReader(r) => ReaderKeepsCounted(s, r);
    case ByWriter(w) => WriterKeepsCounted(s, w);
    case ByHandle(h) => HandleKeepsCounted(s, h);
  }

  /** Every step of every party keeps the invariant. */
  lemma {:induction false} StepKeepsInv(s: State, a: Action)
    requires Inv(s) && Enabled(s, a)
    ensures Inv(Apply(s, a))
  {
    StepKeepsHandshake(s, a);
    StepKeepsFifo(s, a);
    StepKeepsWoken(s, a);
    StepKeepsCounted(s, a);
  }

  lemma {:induction false} RunKeepsInv(timeoutSet: bool, actions: seq<Action>)
    requires Play(Init(timeoutSet), actions).Some?
    ensures Inv(Play(Init(timeoutSet), actions).value)
  {
    if actions != [] {
      var init, a := actions[..|actions| - 1], actions[|actions| - 1];
      RunKeepsInv(timeoutSet, init);
      StepKeepsInv(Play(Init(timeoutSet), init).value, a);
    }
  }

  lemma {:induction false} ReachableInv(s: State)
    requires Reachable(s)
    ensures Inv(s)
  {
    var timeoutSet, actions :| Play(Init(timeoutSet), actions) == Some(s);
    RunKeepsInv(timeoutSet, actions);
  }

  // ---- what follows for every interleaving -------------------------------------------------

  /**
   * Whenever the handle may find a channel closed, an error is waiting for it, so the unwrap in
   * `get_error_for_close` never fails; and it runs at most once in the life of the connection.
   */
  lemma {:induction false} CloseAlwaysHasAReason(s: State)
    requires Reachable(s)
    ensures HandleAlive(s) && s.error.None? && (!s.inOpen || !s.outOpen) ==> s.errorQ.Some?
    ensures !s.unwrapFailed && s.unwraps <= 1
  {
    ReachableInv(s);
  }

  // ---- from the wire to the handle ---------------------------------------------------------

  /** The batch a step decodes. */
  function Reads(a: Action): seq<Batch> {
    if a.ByReader? && a.r.ReadBatch? then [a.r.batch] else []
  }

  /** All batches decoded in a run, in order. */
  function Decoded(actions: seq<Action>): seq<Batch> {
    if actions == [] then [] else Decoded(actions[..|actions| - 1]) + Reads(actions[|actions| - 1])
  }

  /** The batch the reader has decoded and not yet queued. */
  function InHand(r: Reader): seq<Batch> {
    if r.Got? || r.Pushing? then [r.batch] else []
  }

  /** While there is a handle, or once its receive has found the error, every decoded batch is accounted for. */
  ghost predicate AllThere(s: State, decoded: seq<Batch>) {
    HandleAlive(s) || s.finder.FoundByReceive? ==> decoded == s.delivered + s.inQ + InHand(s.reader)
  }

  lemma {:induction false} ReaderKeepsAll(s: State, r: ReaderAction, decoded: seq<Batch>)
    requires Fifo(s) && AllThere(s, decoded) && ReaderEnabled(s, r)
    ensures AllThere(ReaderStep(s, r), decoded + Reads(ByReader(r)))
  {
    var t, before := ReaderStep(s, r), s.delivered + s.inQ;
    assert decoded + [] == decoded && before + [] == before;
    match r
    case ReadBatch(batch) => assert before + [] + [batch] == before + [batch];
    case PushBatch =>
      assert s.delivered + (s.inQ + [s.reader.batch]) == before + [s.reader.batch];
      assert s.delivered + t.inQ + [] == s.delivered + t.inQ;
    case _ =>
  }

  lemma {:induction false} HandleKeepsAll(s: State, h: HandleAction, decoded: seq<Batch>)
    requires Fifo(s) && AllThere(s, decoded) && HandleEnabled(s, h)
    ensures AllThere(HandleStep(s, h), decoded)
  {
    if h.Pop? || h.AwaitPop? {
      assert s.delivered + s.inQ == (s.delivered + [s.inQ[0]]) + s.inQ[1..];
    }
  }

  lemma {:induction false} WriterKeepsAll(s: State, w: WriterAction, decoded: seq<Batch>)
    requires AllThere(s, decoded) && WriterEnabled(s, w)
    ensures AllThere(WriterStep(s, w), decoded)
  {
    var t := WriterStep(s, w);
    assert t.reader == s.reader && t.inQ == s.inQ && t.finder == s.finder;
  }

  lemma {:induction false} StepKeepsAll(s: State, a: Action, decoded: seq<Batch>)
    requires Fifo(s) && AllThere(s, decoded) && Enabled(s, a)
    ensures AllThere(Apply(s, a), decoded + Reads(a))
  {
    match a
    case ByReader(r) => ReaderKeepsAll(s, r, decoded);
    case ByWriter(w) =>
      assert decoded + [] == decoded;
      WriterKeepsAll(s, w, decoded);
    case ByHandle(h) =>
      assert decoded + [] == decoded;
      HandleKeepsAll(s, h, decoded);
  }

  /** Over every run, with the handle alive: what was decoded was handed over, is queued, or is in the reader's hand. */
  lemma {:induction false} NothingDecodedIsLost(timeoutSet: bool, actions: seq<Action>, s: State)
    requires Play(Init(timeoutSet), actions) == Some(s)
    ensures AllThere(s, Decoded(actions))
  {
    if actions != [] {
      var init, a := actions[..|actions| - 1], actions[|actions| - 1];
      var before := Play(Init(timeoutSet), init).value;
      RunKeepsInv(timeoutSet, init);
      NothingDecodedIsLost(timeoutSet, init, before);
      StepKeepsAll(before, a, Decoded(init));
    }
  }

  /** A receive that reports the error has already handed over every reply the reader ever decoded. */
  lemma {:induction false} RepliesBeforeError(timeoutSet: bool, actions: seq<Action>, s: State)
    requires Play(Init(timeoutSet), actions) == Some(s) && s.finder.FoundByReceive?
    ensures s.delivered == s.pushed == Decoded(actions) && (s.reader.Dropped? || s.reader.ReaderDone?)
  {
    RunKeepsInv(timeoutSet, actions);
    NothingDecodedIsLost(timeoutSet, actions, s);
    assert s.delivered + [] == s.delivered && s.delivered + [] + [] == s.delivered;
  }

  lemma {:induction false} HandleAfterError(s: State, h: HandleAction)
    requires Handshake(s) && s.error.Some? && HandleEnabled(s, h)
    ensures HandleStep(s, h).delivered == s.delivered && HandleStep(s, h).error == s.error
  {
  }

  /** Once the error is known, by whatever call, no reply is handed over any more. */
  lemma {:induction false} ErrorEndsDelivery(s: State, a: Action)
    requires Reachable(s) && s.error.Some? && Enabled(s, a)
    ensures Apply(s, a).delivered == s.delivered && Apply(s, a).error == s.error
  {
    ReachableInv(s);
    if a.ByHandle? {
      HandleAfterError(s, a.h);
    }
  }

  /**
   * Which call loses replies: the one that brings the error to light leaves some behind exactly when it
   * is a `send` or a `get_error` and replies are queued at that moment.
   */
  lemma {:induction false} ErrorLosesExactly(s: State, h: HandleAction)
    requires Reachable(s) && s.error.None? && HandleEnabled(s, h) && HandleStep(s, h).error.Some?
    ensures HandleStep(s, h).delivered != HandleStep(s, h).pushed <==> (h.Send? || h.GetError?) && s.inQ != []
  {
    ReachableInv(s);
    if s.inQ != [] {
      assert |s.pushed| > |s.delivered|;
    } else {
      assert s.delivered + [] == s.delivered;
    }
  }

  /** Replies left behind stay behind: however the connection goes on, nothing more is handed over. */
  lemma {:induction false} LostForGood(s: State, actions: seq<Action>)
    requires Reachable(s) && s.error.Some? && Play(s, actions).Some?
    ensures var t := Play(s, actions).value;
            && Reachable(t) && t.error == s.error && t.delivered == s.delivered && s.pushed <= t.pushed
  {
    if actions != [] {
      var init, a := actions[..|actions| - 1], actions[|actions| - 1];
      LostForGood(s, init);
      var before := Play(s, init).value;
      ErrorEndsDelivery(before, a);
      PushedGrows(before, a);
      ReachStep(before, a);
    }
  }

  lemma {:induction false} PushedGrows(s: State, a: Action)
    requires Enabled(s, a)
    ensures s.pushed <= Apply(s, a).pushed
  {
    match a
    case ByReader(r) => assert s.pushed <= ReaderStep(s, r).pushed;
    case ByWriter(w) => assert WriterStep(s, w).pushed == s.pushed;
    case ByHandle(h) => assert HandleStep(s, h).pushed == s.pushed;
  }

  /** Replies and the end of the connection are never left for the handle to find by chance. */
  lemma {:induction false} NothingStranded(s: State)
    requires Reachable(s) && s.handle.Ready? && s.error.None?
    ensures s.inQ != [] ==> s.forceRun || s.reader.Nudging?
    ensures !s.inOpen ==> s.forceRun || s.reader.Dropped?
  {
    ReachableInv(s);
  }

  /**
   * While a written request is unanswered, the waiting reader has its timeout armed or a wake-up is
   * stored for it; and when it next looks at the count it will arm it.
   */
  lemma {:induction false} TimeoutArmed(s: State)
    requires Reachable(s) && s.outstanding > 0
    ensures s.reader.Select? ==> s.reader.pendingSeen || s.permit
    ensures s.reader.Top? ==> ReaderStep(s, LoadCount).reader == Select(true)
  {
    ReachableInv(s);
  }

  /** The pending count never drops below zero: what the reader takes off was put on before. */
  lemma {:induction false} CountNeverNegative(s: State)
    requires Reachable(s)
    ensures s.count >= 0
    ensures s.reader.Got? ==> s.count >= Solicited(s.reader.batch)
  {
    ReachableInv(s);
  }

  // ---- what the count is made of ------------------------------------------------------------

  function Dummies(batch: seq<Request>): nat {
    if batch == [] then 0
    else Dummies(batch[..|batch| - 1]) + if batch[|batch| - 1].responseIsDummy then 1 else 0
  }

  function DummiesIn(batches: seq<seq<Request>>): nat {
    if batches == [] then 0 else DummiesIn(batches[..|batches| - 1]) + Dummies(batches[|batches| - 1])
  }

  /** The batch a step puts into the channel to the writer. */
  function Accepts(s: State, a: Action): seq<seq<Request>> {
    if a.ByHandle? && a.h.Send? && s.error.None? && s.outOpen then [a.h.requests]
    else if a.ByReader? && a.r.RespondAndClose? && s.outOpen then [a.r.messages]
    else []
  }

  /** The batch a step takes out of it. */
  function Takes(s: State, a: Action): seq<seq<Request>> {
    if a == ByWriter(TakeBatch) && s.outQ != [] then [s.outQ[0]] else []
  }

  /** All batches handed to the writer's channel in a run. */
  function Accepted(s: State, actions: seq<Action>): seq<seq<Request>> {
    if actions == [] then []
    else
      var init := actions[..|actions| - 1];
      if Play(s, init).None? then [] else Accepted(s, init) + Accepts(Play(s, init).value, actions[|actions| - 1])
  }

  /** All batches the writer has taken out of it. */
  function Taken(s: State, actions: seq<Action>): seq<seq<Request>> {
    if actions == [] then []
    else
      var init := actions[..|actions| - 1];
      if Play(s, init).None? then [] else Taken(s, init) + Takes(Play(s, init).value, actions[|actions| - 1])
  }

  /** The requests counted and still unwritten, or dummies: what the writer's place says about `leaked`. */
  ghost predicate DummiesCounted(s: State, taken: seq<seq<Request>>) {
    match s.writer
    case Idle => s.leaked == DummiesIn(taken)
    case Added(batch) => s.leaked + Dummies(batch) == DummiesIn(taken)
    case Writing(sending, next) =>
      next <= |sending| && s.leaked + Dummies(sending) == DummiesIn(taken) + Dummies(sending[..next])
    case _ => true
  }

  lemma {:induction false} DummiesAppended(batches: seq<seq<Request>>, batch: seq<Request>)
    ensures DummiesIn(batches + [batch]) == DummiesIn(batches) + Dummies(batch)
  {
    assert (batches + [batch])[..|batches|] == batches;
  }

  lemma {:induction false} WriterCountsDummies(s: State, w: WriterAction, taken: seq<seq<Request>>)
    requires DummiesCounted(s, taken) && WriterEnabled(s, w) && !w.TakeBatch?
    ensures DummiesCounted(WriterStep(s, w), taken)
  {
    match w
    case NotifyReader => assert s.writer.batch[..0] == [];
    case WriteOne =>
      var sending, k := s.writer.sending, s.writer.next;
      assert sending[..k + 1][..k] == sending[..k];
    case WriteDone => assert s.writer.sending[..|s.writer.sending|] == s.writer.sending;
    case _ =>
  }

  lemma {:induction false} DummiesUntouched(s: State, t: State, taken: seq<seq<Request>>)
    requires DummiesCounted(s, taken) && t.writer == s.writer && t.leaked == s.leaked
    ensures DummiesCounted(t, taken)
  {
  }

  lemma {:induction false} StepCountsDummies(s: State, a: Action, taken: seq<seq<Request>>)
    requires DummiesCounted(s, taken) && Enabled(s, a)
    ensures DummiesCounted(Apply(s, a), taken + Takes(s, a))
  {
    if a == ByWriter(TakeBatch) {
      DummiesAppended(taken, s.outQ[0]);
    } else {
      assert taken + [] == taken;
      match a
      case ByReader(r) => DummiesUntouched(s, ReaderStep(s, r), taken);
      case ByWriter(w) => WriterCountsDummies(s, w, taken);
      case ByHandle(h) => DummiesUntouched(s, HandleStep(s, h), taken);
    }
  }

  lemma {:induction false} RunCountsDummies(s: State, actions: seq<Action>)
    requires DummiesCounted(s, []) && Play(s, actions).Some?
    ensures DummiesCounted(Play(s, actions).value, Taken(s, actions))
  {
    if actions != [] {
      var init, a := actions[..|actions| - 1], actions[|actions| - 1];
      RunCountsDummies(s, init);
      StepCountsDummies(Play(s, init).value, a, Taken(s, init));
    }
  }

  /** One step puts in at the back and takes out at the front. */
  lemma {:induction false} StepKeepsOrder(s: State, a: Action)
    requires Enabled(s, a)
    ensures Takes(s, a) + Apply(s, a).outQ == s.outQ + Accepts(s, a)
  {
    var after := Apply(s, a).outQ;
    match a
    case ByReader(r) => assert ReaderStep(s, r).outQ == s.outQ + Accepts(s, a) && [] + after == after;
    case ByWriter(w) => assert WriterStep(s, w).outQ == after && s.outQ + [] == s.outQ;
    case ByHandle(h) => assert HandleStep(s, h).outQ == s.outQ + Accepts(s, a) && [] + after == after;
  }

  lemma {:induction false} OrderKept<T>(taken: seq<T>, q: seq<T>, accepts: seq<T>, takes: seq<T>, q': seq<T>)
    requires takes + q' == q + accepts
    ensures taken + q + accepts == taken + takes + q'
  {
    assert taken + q + accepts == taken + (q + accepts);
    assert taken + takes + q' == taken + (takes + q');
  }

  /** The channel to the writer is first in, first out. */
  lemma {:induction false} RunKeepsOrder(s: State, actions: seq<Action>)
    requires s.outQ == [] && Play(s, actions).Some?
    ensures Accepted(s, actions) == Taken(s, actions) + Play(s, actions).value.outQ
  {
    if actions != [] {
      var init, a := actions[..|actions| - 1], actions[|actions| - 1];
      RunKeepsOrder(s, init);
      var before := Play(s, init).value;
      StepKeepsOrder(before, a);
      OrderKept(Taken(s, init), before.outQ, Accepts(before, a), Takes(before, a), Apply(before, a).outQ);
    }
  }

  // ---- from the handle to the wire -----------------------------------------------------------

  function Flat(batches: seq<seq<Request>>): seq<Request> {
    if batches == [] then [] else Flat(batches[..|batches| - 1]) + batches[|batches| - 1]
  }

  /** The request a step writes. */
  function Writes(s: State, a: Action): seq<Request> {
    if a == ByWriter(WriteOne) && WriterEnabled(s, WriteOne) then [s.writer.sending[s.writer.next]] else []
  }

  /** All requests written in a run, in order. */
  function Written(s: State, actions: seq<Action>): seq<Request> {
    if actions == [] then []
    else
      var init := actions[..|actions| - 1];
      if Play(s, init).None? then [] else Written(s, init) + Writes(Play(s, init).value, actions[|actions| - 1])
  }

  /** What the writer has taken and not yet written. */
  function Rest(w: Writer): seq<Request> {
    match w
    case Added(batch) => batch
    case Writing(sending, next) => if next <= |sending| then sending[next..] else []
    case _ => []
  }

  predicate WriterRuns(w: Writer) {
    w.Idle? || w.Added? || w.Writing?
  }

  /** What was written are the requests of the batches taken, in order; all but the rest of the batch in work. */
  ghost predicate WrittenSoFar(w: Writer, taken: seq<Request>, written: seq<Request>) {
    && (w.Writing? ==> w.next <= |w.sending|)
    && if WriterRuns(w) then taken == written + Rest(w) else written <= taken
  }

  lemma {:induction false} FlatAppended(batches: seq<seq<Request>>, batch: seq<Request>)
    ensures Flat(batches + [batch]) == Flat(batches) + batch
  {
    assert (batches + [batch])[..|batches|] == batches;
  }

  lemma {:induction false} WriterWrites(s: State, w: WriterAction, taken: seq<Request>, written: seq<Request>)
    requires WrittenSoFar(s.writer, taken, written) && WriterEnabled(s, w) && !w.TakeBatch?
    ensures WrittenSoFar(WriterStep(s, w).writer, taken, written + Writes(s, ByWriter(w)))
  {
    assert written + [] == written;
    match w
    case NotifyReader => assert s.writer.batch[0..] == s.writer.batch;
    case WriteOne =>
      var sending, k := s.writer.sending, s.writer.next;
      assert sending[k..] == [sending[k]] + sending[k + 1..];
      assert written + [sending[k]] + sending[k + 1..] == written + ([sending[k]] + sending[k + 1..]);
    case WriteDone => assert Rest(s.writer) == [];
    case _ =>
  }

  lemma {:induction false} StepWrites(s: State, a: Action, taken: seq<seq<Request>>, written: seq<Request>)
    requires WrittenSoFar(s.writer, Flat(taken), written) && Enabled(s, a)
    ensures WrittenSoFar(Apply(s, a).writer, Flat(taken + Takes(s, a)), written + Writes(s, a))
  {
    assert written + [] == written;
    if a == ByWriter(TakeBatch) {
      FlatAppended(taken, s.outQ[0]);
    } else {
      assert taken + [] == taken;
      match a
      case ByReader(r) => assert ReaderStep(s, r).writer == s.writer;
      case ByWriter(w) => WriterWrites(s, w, Flat(taken), written);
      case ByHandle(h) => assert HandleStep(s, h).writer == s.writer;
    }
  }

  lemma {:induction false} RunWrites(s: State, actions: seq<Action>)
    requires s.writer.Idle? && Play(s, actions).Some?
    ensures WrittenSoFar(Play(s, actions).value.writer, Flat(Taken(s, actions)), Written(s, actions))
  {
    if actions != [] {
      var init, a := actions[..|actions| - 1], actions[|actions| - 1];
      RunWrites(s, init);
      StepWrites(Play(s, init).value, a, Taken(s, init), Written(s, init));
    }
  }

  lemma {:induction false} FlatConcat(a: seq<seq<Request>>, b: seq<seq<Request>>)
    ensures Flat(a + b) == Flat(a) + Flat(b)
  {
    if b == [] {
      assert a + b == a;
    } else {
      FlatConcat(a, b[..|b| - 1]);
      assert (a + b)[..|a + b| - 1] == a + b[..|b| - 1];
    }
  }

  /**
   * Over every run: what was written is a prefix of the requests sent, and while the writer runs the rest is what it
   * has in hand and what is queued for it.
   */
  lemma {:induction false} RequestsWrittenInOrder(timeoutSet: bool, actions: seq<Action>, s: State)
    requires Play(Init(timeoutSet), actions) == Some(s)
    ensures Written(Init(timeoutSet), actions) <= Flat(Accepted(Init(timeoutSet), actions))
    ensures WriterRuns(s.writer) ==>
      Flat(Accepted(Init(timeoutSet), actions))
      == Written(Init(timeoutSet), actions) + Rest(s.writer) + Flat(s.outQ)
  {
    RunKeepsOrder(Init(timeoutSet), actions);
    RunWrites(Init(timeoutSet), actions);
    FlatConcat(Taken(Init(timeoutSet), actions), s.outQ);
  }

  ghost predicate HasDummy(batches: seq<seq<Request>>) {
    exists i, j :: 0 <= i < |batches| && 0 <= j < |batches[i]| && batches[i][j].responseIsDummy
  }

  lemma {:induction false} DummiesFound(batch: seq<Request>)
    ensures Dummies(batch) > 0 <==> exists j :: 0 <= j < |batch| && batch[j].responseIsDummy
  {
    if batch != [] {
      var init := batch[..|batch| - 1];
      DummiesFound(init);
      assert forall j :: 0 <= j < |init| ==> init[j] == batch[j];
    }
  }

  lemma {:induction false} DummiesInFound(batches: seq<seq<Request>>)
    ensures DummiesIn(batches) > 0 <==> HasDummy(batches)
  {
    if batches != [] {
      var init, last := batches[..|batches| - 1], batches[|batches| - 1];
      DummiesInFound(init);
      DummiesFound(last);
      assert forall i :: 0 <= i < |init| ==> init[i] == batches[i];
      if HasDummy(init) {
        var i, j :| 0 <= i < |init| && 0 <= j < |init[i]| && init[i][j].responseIsDummy;
        assert batches[i][j].responseIsDummy;
      } else if HasDummy(batches) {
        var i, j :| 0 <= i < |batches| && 0 <= j < |batches[i]| && batches[i][j].responseIsDummy;
        assert i == |batches| - 1;
      }
    }
  }

  /**
   * With every request written and every written one answered, the reader arms its timeout again exactly
   * if a request that no server reply answers was ever sent.
   */
  lemma {:induction false} IdleTimeoutExactly(timeoutSet: bool, actions: seq<Action>, s: State)
    requires Play(Init(timeoutSet), actions) == Some(s)
    requires s.outstanding == 0 && s.writer.Idle? && s.outQ == [] && s.reader.Top?
    ensures ReaderStep(s, LoadCount).reader == Select(true) <==> HasDummy(Accepted(Init(timeoutSet), actions))
    ensures s.count == DummiesIn(Accepted(Init(timeoutSet), actions))
  {
    RunKeepsInv(timeoutSet, actions);
    RunCountsDummies(Init(timeoutSet), actions);
    RunKeepsOrder(Init(timeoutSet), actions);
    var taken := Taken(Init(timeoutSet), actions);
    assert taken + [] == taken;
    DummiesInFound(taken);
  }

  // ---- which error it is ----------------------------------------------------------------------

  /** The errors with which reader and writer came to their ends, and that of the one that was first to report. */
  datatype Failures = Failures(reader: Option<ConnError>, writer: Option<ConnError>, first: Option<ConnError>)

  function Fails(f: Failures, a: Action): Failures {
    match a
    case ByReader(ReadFails(err)) => f.(reader := Some(err))
    case ByReader(RespondAndClose(_)) => f.(reader := Some(ShotoverClosed))
    case ByReader(Timeout) => f.(reader := Some(ReadTimeout))
    case ByWriter(WriteFails(err)) => f.(writer := Some(err))
    case ByReader(ReportError) => f.(first := if f.first.None? then f.reader else f.first)
    case ByWriter(TellError) => f.(first := if f.first.None? then f.writer else f.first)
    case _ => f
  }

  function FailuresIn(actions: seq<Action>): Failures {
    if actions == [] then Failures(None, None, None)
    else Fails(FailuresIn(actions[..|actions| - 1]), actions[|actions| - 1])
  }

  /** The error the handle knows, or will find, is the first one reported. */
  ghost predicate ErrorRight(s: State, f: Failures) {
    && (s.reader.Erring? ==> f.reader == Some(s.reader.err))
    && (s.writer.Failing? ==> f.writer == Some(s.writer.error))
    && (if s.error.Some? then s.error else s.errorQ) == f.first
  }

  lemma {:induction false} ReaderKeepsError(s: State, r: ReaderAction, f: Failures)
    requires ErrorRight(s, f) && ReaderEnabled(s, r)
    ensures ErrorRight(ReaderStep(s, r), Fails(f, ByReader(r)))
  {
    match r
    case ReportError =>
    case ReadFails(_) =>
    case RespondAndClose(_) =>
    case Timeout =>
    case _ => assert Fails(f, ByReader(r)) == f && ReaderStep(s, r).errorQ == s.errorQ;
  }

  lemma {:induction false} WriterKeepsError(s: State, w: WriterAction, f: Failures)
    requires ErrorRight(s, f) && WriterEnabled(s, w)
    ensures ErrorRight(WriterStep(s, w), Fails(f, ByWriter(w)))
  {
    assert WriterStep(s, w).reader == s.reader;
  }

  lemma {:induction false} HandleKeepsError(s: State, h: HandleAction, f: Failures)
    requires Handshake(s) && ErrorRight(s, f) && HandleEnabled(s, h)
    ensures ErrorRight(HandleStep(s, h), f)
  {
  }

  /** Of the errors of the two tasks the handle gets the one that was reported first. */
  lemma {:induction false} FirstErrorWins(timeoutSet: bool, actions: seq<Action>, s: State)
    requires Play(Init(timeoutSet), actions) == Some(s)
    ensures ErrorRight(s, FailuresIn(actions))
    ensures s.error.Some? ==> s.error == FailuresIn(actions).first
  {
    if actions != [] {
      var init, f := actions[..|actions| - 1], FailuresIn(actions[..|actions| - 1]);
      var before := Play(Init(timeoutSet), init).value;
      RunKeepsInv(timeoutSet, init);
      FirstErrorWins(timeoutSet, init, before);
      match actions[|actions| - 1]
      case ByReader(r) => ReaderKeepsError(before, r, f);
      case ByWriter(w) => WriterKeepsError(before, w, f);
      case ByHandle(h) => HandleKeepsError(before, h, f);
    }
  }

  // ---- every wait and every wake-up has its cause ---------------------------------------------

  /** The batches taken since the latest receive began. */
  function TakenByReceive(actions: seq<Action>): nat {
    if actions == [] then 0
    else
      match actions[|actions| - 1]
      case ByHandle(TryRecv(_)) => 0
      case ByHandle(RunChain) => 0
      case ByHandle(Pop) => TakenByReceive(actions[..|actions| - 1]) + 1
      case _ => TakenByReceive(actions[..|actions| - 1])
  }

  /** The calls that ask for a chain run, and those that make one. */
  function Nudges(actions: seq<Action>): nat {
    if actions == [] then 0
    else
      var a := actions[|actions| - 1];
      Nudges(actions[..|actions| - 1]) + if a == ByReader(Nudge) || a == ByReader(NudgeLast) then 1 else 0
  }

  function ChainRuns(actions: seq<Action>): nat {
    if actions == [] then 0
    else ChainRuns(actions[..|actions| - 1]) + if actions[|actions| - 1] == ByHandle(RunChain) then 1 else 0
  }

  predicate TimedOut(actions: seq<Action>) {
    actions != [] && (TimedOut(actions[..|actions| - 1]) || actions[|actions| - 1] == ByReader(Timeout))
  }

  ghost predicate Caused(timeoutSet: bool, s: State, actions: seq<Action>) {
    && s.timeoutSet == timeoutSet && (TimedOut(actions) ==> timeoutSet)
    && ChainRuns(actions) + (if s.forceRun then 1 else 0) <= Nudges(actions)
    && (s.handle.Draining? ==> (s.handle.got <==> TakenByReceive(actions) > 0))
    && (s.handle.Awaiting? ==> TakenByReceive(actions) == 0)
  }

  lemma {:induction false} CausedByReader(timeoutSet: bool, s: State, actions: seq<Action>, r: ReaderAction)
    requires Caused(timeoutSet, s, actions) && ReaderEnabled(s, r)
    ensures Caused(timeoutSet, ReaderStep(s, r), actions + [ByReader(r)])
  {
    assert (actions + [ByReader(r)])[..|actions|] == actions;
  }

  lemma {:induction false} CausedByWriter(timeoutSet: bool, s: State, actions: seq<Action>, w: WriterAction)
    requires Caused(timeoutSet, s, actions) && WriterEnabled(s, w)
    ensures Caused(timeoutSet, WriterStep(s, w), actions + [ByWriter(w)])
  {
    assert (actions + [ByWriter(w)])[..|actions|] == actions;
  }

  lemma {:induction false} CausedByHandle(timeoutSet: bool, s: State, actions: seq<Action>, h: HandleAction)
    requires Caused(timeoutSet, s, actions) && HandleEnabled(s, h)
    ensures Caused(timeoutSet, HandleStep(s, h), actions + [ByHandle(h)])
  {
    assert (actions + [ByHandle(h)])[..|actions|] == actions;
  }

  lemma {:induction false} StepCaused(timeoutSet: bool, s: State, actions: seq<Action>, a: Action)
    requires Caused(timeoutSet, s, actions) && Enabled(s, a)
    ensures Caused(timeoutSet, Apply(s, a), actions + [a])
  {
    match a
    case ByReader(r) => CausedByReader(timeoutSet, s, actions, r);
    case ByWriter(w) => CausedByWriter(timeoutSet, s, actions, w);
    case ByHandle(h) => CausedByHandle(timeoutSet, s, actions, h);
  }

  lemma {:induction false} LastStep(s: State, actions: seq<Action>, t: State)
    returns (init: seq<Action>, a: Action, before: State)
    requires actions != [] && Play(s, actions) == Some(t)
    ensures actions == init + [a] && Play(s, init) == Some(before) && Enabled(before, a) && t == Apply(before, a)
  {
    init, a := actions[..|actions| - 1], actions[|actions| - 1];
    before := Play(s, init).value;
  }

  /**
   * Over every run: no timeout without one configured, no forced chain run that was not asked for, and no receive
   * waits once it has taken a reply.
   */
  lemma {:induction false} EverythingCaused(timeoutSet: bool, actions: seq<Action>, s: State)
    requires Play(Init(timeoutSet), actions) == Some(s)
    ensures Caused(timeoutSet, s, actions)
  {
    if actions != [] {
      var init, a, before := LastStep(Init(timeoutSet), actions, s);
      EverythingCaused(timeoutSet, init, before);
      StepCaused(timeoutSet, before, init, a);
    }
  }

  // ---- runs that show the limits ----------------------------------------------------------

  lemma {:induction false} ReachInit(timeoutSet: bool)
    ensures Reachable(Init(timeoutSet))
  {
    assert Play(Init(timeoutSet), []) == Some(Init(timeoutSet));
  }

  lemma {:induction false} ReachStep(s: State, a: Action)
    requires Reachable(s) && Enabled(s, a)
    ensures Reachable(Apply(s, a))
  {
    var timeoutSet, actions :| Play(Init(timeoutSet), actions) == Some(s);
    assert (actions + [a])[..|actions|] == actions;
    assert Play(Init(timeoutSet), actions + [a]) == Some(Apply(s, a));
  }

  lemma {:induction false} ReachSent(timeoutSet: bool, q: Request) returns (s: State)
    ensures Reachable(s) && s == Init(timeoutSet).(outQ := [[q]])
  {
    ReachInit(timeoutSet);
    s := Init(timeoutSet);
    ReachStep(s, ByHandle(Send([q])));
    s := Apply(s, ByHandle(Send([q])));
    assert s.outQ == [[q]];
  }

  lemma {:induction false} ReachNotified(timeoutSet: bool, q: Request) returns (s: State)
    ensures Reachable(s)
    ensures s == Init(timeoutSet).(writer := Writing([q], 0), count := 1, permit := true)
  {
    s := ReachSent(timeoutSet, q);
    assert [[q]][1..] == [];
    ReachStep(s, ByWriter(TakeBatch));
    s := Apply(s, ByWriter(TakeBatch));
    ReachStep(s, ByWriter(NotifyReader));
    s := Apply(s, ByWriter(NotifyReader));
  }

  lemma {:induction false} ReachWritten(timeoutSet: bool, q: Request) returns (s: State)
    ensures Reachable(s)
    ensures s == Init(timeoutSet).(
      writer := Writing([q], 1), count := 1, permit := true,
      outstanding := if q.responseIsDummy then 0 else 1, leaked := if q.responseIsDummy then 1 else 0)
  {
    s := ReachNotified(timeoutSet, q);
    ReachStep(s, ByWriter(WriteOne));
    s := Apply(s, ByWriter(WriteOne));
  }

  lemma {:induction false} ReachRead(s0: State, reply: Response) returns (s: State)
    requires Reachable(s0) && s0.reader.Top? && s0.handle.Ready? && s0.outstanding == 1 && reply.requestId.Some?
    ensures Reachable(s) && s == s0.(reader := Got([reply]), outstanding := 0)
  {
    assert Solicited([reply]) == 1 by {
      assert [reply][..0] == [];
    }
    ReachStep(s0, ByReader(LoadCount));
    s := Apply(s0, ByReader(LoadCount));
    ReachStep(s, ByReader(ReadBatch([reply])));
    s := Apply(s, ByReader(ReadBatch([reply])));
  }

  lemma {:induction false} ReachQueued(s0: State, reply: Response) returns (s: State)
    requires Reachable(s0) && s0.reader.Top? && s0.handle.Ready? && s0.inQ == [] && s0.outstanding == 1
    requires reply.requestId.Some?
    ensures Reachable(s) && s.inQ == [[reply]] && s.handle.Ready? && s.error == s0.error
    ensures s.writer == s0.writer && s.outOpen == s0.outOpen && s.errorQ == s0.errorQ
  {
    s := ReachRead(s0, reply);
    ReachStep(s, ByReader(LowerCount));
    s := Apply(s, ByReader(LowerCount));
    ReachStep(s, ByReader(PushBatch));
    s := Apply(s, ByReader(PushBatch));
  }

  /** A reply is queued, and the writer has failed and gone. */
  lemma {:induction false} ReachWriterGone(q: Request, reply: Response) returns (s: State)
    requires !q.responseIsDummy && reply.requestId.Some?
    ensures Reachable(s) && s.inQ == [[reply]] && s.handle.Ready? && s.error.None?
    ensures !s.outOpen && s.errorQ.Some?
  {
    s := ReachWritten(false, q);
    s := ReachQueued(s, reply);
    ReachStep(s, ByWriter(WriteFails(OtherSideClosed)));
    s := Apply(s, ByWriter(WriteFails(OtherSideClosed)));
    ReachStep(s, ByWriter(TellError));
    s := Apply(s, ByWriter(TellError));
    ReachStep(s, ByWriter(DropOut));
    s := Apply(s, ByWriter(DropOut));
  }

  /**
   * A reply that was queued in time is lost if the writer fails and `send` or `get_error` is the call that
   * finds out: from then on a receive only reports the stored error.
   */
  lemma {:induction false} SendLosesReplies(q: Request, reply: Response, h: HandleAction) returns (s: State)
    requires !q.responseIsDummy && reply.requestId.Some? && (h.Send? || h.GetError?)
    ensures Reachable(s) && (s.finder == if h.Send? then FoundBySend else FoundByGetError)
    ensures !Enabled(s, ByHandle(TryRecv(false))) && s.delivered != s.pushed
  {
    s := ReachWriterGone(q, reply);
    ErrorLosesExactly(s, h);
    ReachStep(s, ByHandle(h));
    s := Apply(s, ByHandle(h));
  }

  /** A single dummy request is enough for an idle, healthy connection to be closed by the read timeout. */
  lemma {:induction false} DummyTimesOut(q: Request) returns (s: State)
    requires q.responseIsDummy
    ensures Reachable(s) && s.reader == Erring(ReadTimeout)
    ensures s.outstanding == 0 && s.writer.Idle? && s.outQ == []
  {
    s := ReachWritten(true, q);
    ReachStep(s, ByWriter(WriteDone));
    s := Apply(s, ByWriter(WriteDone));
    ReachStep(s, ByReader(LoadCount));
    s := Apply(s, ByReader(LoadCount));
    ReachStep(s, ByReader(TakePermit));
    s := Apply(s, ByReader(TakePermit));
    ReachStep(s, ByReader(LoadCount));
    s := Apply(s, ByReader(LoadCount));
    ReachStep(s, ByReader(Timeout));
    s := Apply(s, ByReader(Timeout));
  }
}
