/** Coalesce: requests are held back until there are enough of them or they have waited long enough. */
module Coalesce {
  import opened Messages

  /** `interval` is the configured number of milliseconds, `threshold` the configured number of requests. */
  datatype Config = Config(threshold: Option<nat>, interval: nat)

  // ---- one call of the transform --------------------------------------------------------------------

  predicate Enough(threshold: Option<nat>, buffered: nat) {
    threshold.Some? && buffered >= threshold.value
  }

  /** The three ways `transform` can go. */
  datatype Branch = RestartClock | SendDown | HoldBack

  function BranchOf(threshold: Option<nat>, due: bool, buffer: seq<MessageId>, flush: bool): Branch {
    if buffer == [] && !flush then RestartClock
    else if flush || Enough(threshold, |buffer|) || (due && buffer != []) then SendDown
    else HoldBack
  }

  /** The transform's own fields; those of the timer are not used when no interval is configured. */
  class Transform {
    const threshold: Option<nat>
    const interval: Option<nat>
    var buffer: seq<MessageId>
    var lastFlush: nat
    var restartPermit: bool

    constructor (threshold: Option<nat>, interval: Option<nat>, now: nat)
      ensures this.threshold == threshold && this.interval == interval
      ensures buffer == [] && lastFlush == now && restartPermit == interval.Some?
    {
      this.threshold, this.interval := threshold, interval;
      buffer, lastFlush, restartPermit := [], now, interval.Some?;
    }

    /**
      * `transform`: `now` when it decides, `later` when it notes the time. `down` is what went down the chain;
      * what went down and what stays behind make up what was held and what came, in order. `ok` says whether
      * the chain below would succeed.
      */
    method Run(requests: seq<MessageId>, flush: bool, now: nat, later: nat, ok: bool)
      returns (down: Option<seq<MessageId>>)
      modifies this
      ensures (if down.Some? then down.value else []) + buffer == old(buffer) + requests
      ensures down.Some? ==> buffer == []
      ensures var all := old(buffer) + requests;
              down.Some? <==>
              || flush
              || (all != [] && threshold.Some? && |all| >= threshold.value)
              || (all != [] && interval.Some? && now >= old(lastFlush) + interval.value)
      ensures var restarts := interval.Some? && if down.Some? then ok else old(buffer) + requests == [];
              && lastFlush == (if restarts then later else old(lastFlush))
              && restartPermit == (restarts || old(restartPermit))
    {
      buffer := buffer + requests;
      var millisDue := interval.Some? && now - lastFlush >= interval.value;
      if buffer == [] && !flush {
        if interval.Some? {
          lastFlush, restartPermit := later, true;
        }
        return None;
      }
      var millisWantsFlush := millisDue && buffer != [];
      if flush || (threshold.Some? && |buffer| >= threshold.value) || millisWantsFlush {
        down := Some(buffer);
        buffer := [];
        if ok && interval.Some? {
          lastFlush, restartPermit := later, true;
        }
      } else {
        down := None;
      }
    }
  }

  // ---- the transform, the source and the timer task --------------------------------------------------

  /** Where the timer task is; `Fired` is between the end of its sleep and its request for a chain run. */
  datatype Timer = WaitRestart | Computing | Armed(deadline: nat) | Fired

  /** Where the source is: between calls, or at some point inside one. */
  datatype Caller = Idle | Deciding(flush: bool) | Below | Writing | Notifying | Dead

  datatype State = State(
    now: nat, lastFlush: nat, restart: bool, forceRun: bool, timer: Timer, caller: Caller,
    buffer: seq<MessageId>, passed: seq<MessageId>, received: seq<MessageId>)

  datatype Move =
    | Tick(millis: nat)
    | TimerTakes | TimerReads | TimerRestarts | TimerFires | TimerAsks
    | Call(requests: seq<MessageId>, flush: bool, forced: bool)
    | Decide | Return(ok: bool) | Write | Notify

  predicate IsTimerMove(m: Move) {
    m.TimerTakes? || m.TimerReads? || m.TimerRestarts? || m.TimerFires? || m.TimerAsks?
  }

  function Start(now: nat): State {
    State(now, now, true, false, WaitRestart, Idle, [], [], [])
  }

  predicate Due(c: Config, s: State) {
    s.now >= s.lastFlush + c.interval
  }

  predicate Possible(c: Config, s: State, m: Move) {
    match m
    case Tick(_) => true
    case TimerTakes => s.timer.WaitRestart? && s.restart
    case TimerReads => s.timer.Computing?
    case TimerRestarts => s.timer.Armed? && s.restart
    case TimerFires => s.timer.Armed? && s.now >= s.timer.deadline
    case TimerAsks => s.timer.Fired?
    case Call(_, _, forced) => s.caller.Idle? && (forced ==> s.forceRun)
    case Decide => s.caller.Deciding?
    case Return(_) => s.caller.Below?
    case Write => s.caller.Writing?
    case Notify => s.caller.Notifying?
  }

  function Max(a: nat, b: nat): nat {
    if a < b then b else a
  }

  /** Where the branch that `transform` takes leads. */
  function Decision(c: Config, s: State, flush: bool): Caller {
    match BranchOf(c.threshold, Due(c, s), s.buffer, flush)
    case RestartClock => Writing
    case SendDown => Below
    case HoldBack => Idle
  }

  function Next(c: Config, s: State, m: Move): State
    requires Possible(c, s, m)
  {
    match m
    case Tick(d) => s.(now := s.now + d)
    case TimerTakes => s.(timer := Computing, restart := false)
    case TimerReads => s.(timer := Armed(Max(s.now, s.lastFlush + c.interval)))
    case TimerRestarts => s.(timer := Computing, restart := false)
    case TimerFires => s.(timer := Fired)
    case TimerAsks => s.(timer := WaitRestart, forceRun := true)
    case Call(rs, flush, forced) =>
      s.(caller := Deciding(flush), forceRun := s.forceRun && !forced,
         buffer := s.buffer + rs, received := s.received + rs)
    case Decide => s.(caller := Decision(c, s, s.caller.flush))
    case Return(ok) =>
      s.(caller := if ok then Writing else Dead, passed := s.passed + s.buffer, buffer := [])
    case Write => s.(caller := Notifying, lastFlush := s.now)
    case Notify => s.(caller := Idle, restart := true)
  }

  ghost predicate IsRun(c: Config, states: seq<State>, moves: seq<Move>) {
    && |states| == |moves| + 1 && states[0] == Start(states[0].now)
    && forall i :: 0 <= i < |moves| ==>
         Possible(c, states[i], moves[i]) && states[i + 1] == Next(c, states[i], moves[i])
  }

  // ---- no lost wake-up ---------------------------------------------------------------------------------

  /** A restart is stored or about to be. */
  predicate RestartComing(s: State) {
    s.restart || s.caller.Notifying?
  }

  /** A call is past the point where it decides to restart the clock, or has ended the connection. */
  predicate Committed(s: State) {
    s.caller.Below? || s.caller.Writing? || s.caller.Dead?
  }

  /** What each place of the timer guarantees. A deadline may be out of date, but then a restart is coming. */
  predicate TimerSound(c: Config, s: State) {
    match s.timer
    case Computing => true
    case Armed(d) => (s.lastFlush + c.interval <= d || RestartComing(s)) && d <= Max(s.now, s.lastFlush + c.interval)
    case Fired => Due(c, s) || RestartComing(s)
    case WaitRestart =>
      RestartComing(s) || Committed(s) || (Due(c, s) && (s.forceRun || s.caller.Deciding?))
  }

  /** Everything received went down or is held, in order. */
  predicate Conserved(s: State) {
    s.passed + s.buffer == s.received
  }

  predicate Inv(c: Config, s: State) {
    s.lastFlush <= s.now && TimerSound(c, s) && Conserved(s)
  }

  lemma {:induction false} MoveKeepsInv(c: Config, s: State, m: Move)
    requires Inv(c, s) && Possible(c, s, m)
    ensures Inv(c, Next(c, s, m))
  {
    match m
    case Call(rs, _, _) => assert s.passed + (s.buffer + rs) == s.passed + s.buffer + rs;
    case Return(_) => assert s.passed + s.buffer + [] == s.passed + s.buffer;
    case _ =>
  }

  lemma {:induction false} RunKeepsInv(c: Config, states: seq<State>, moves: seq<Move>, i: nat)
    requires IsRun(c, states, moves) && i < |states|
    ensures Inv(c, states[i])
  {
    if i > 0 {
      RunKeepsInv(c, states, moves, i - 1);
      MoveKeepsInv(c, states[i - 1], moves[i - 1]);
      assert states[i] == Next(c, states[i - 1], moves[i - 1]);
    } else {
      assert states[0].passed + states[0].buffer == [];
    }
  }

  /** The timer is running, or a restart is stored for it, or the interval is over and a chain run was asked for. */
  predicate WakeUpInFlight(c: Config, s: State) {
    || s.timer.Computing? || s.timer.Armed?
    || s.restart
    || (Due(c, s) && (s.forceRun || s.timer.Fired?))
  }

  /** Between calls, in every run, the next wake-up is never lost; and no request is lost, doubled or moved. */
  lemma {:induction false} NoLostWakeUp(c: Config, states: seq<State>, moves: seq<Move>, i: nat)
    requires IsRun(c, states, moves) && i < |states|
    ensures states[i].caller.Idle? ==> WakeUpInFlight(c, states[i])
    ensures states[i].passed + states[i].buffer == states[i].received
  {
    RunKeepsInv(c, states, moves, i);
  }

  /** A call that writes the time has nothing left to send. */
  predicate WritesEmpty(s: State) {
    s.caller.Writing? || s.caller.Notifying? ==> s.buffer == []
  }

  /** Over every run: enough requests are never held back. */
  lemma {:induction false} ThresholdKept(c: Config, states: seq<State>, moves: seq<Move>, i: nat)
    requires IsRun(c, states, moves) && i < |states|
    ensures WritesEmpty(states[i])
    ensures states[i].caller.Idle? && c.threshold.Some? ==>
      states[i].buffer == [] || |states[i].buffer| < c.threshold.value
  {
    if i > 0 {
      ThresholdKept(c, states, moves, i - 1);
      assert states[i] == Next(c, states[i - 1], moves[i - 1]);
    }
  }

  /** A call below that failed was the last one. */
  lemma {:induction false} FailureEnds(c: Config, states: seq<State>, moves: seq<Move>, i: nat, j: nat)
    requires IsRun(c, states, moves) && i < j < |states| && moves[i] == Return(false)
    ensures states[j].caller.Dead? && states[j].lastFlush == states[i].lastFlush
  {
    assert states[j] == Next(c, states[j - 1], moves[j - 1]) && Possible(c, states[j - 1], moves[j - 1]);
    if j > i + 1 {
      FailureEnds(c, states, moves, i, j - 1);
    }
  }

  /** The time of the latest restart of the clock. */
  ghost function LastWrite(states: seq<State>, moves: seq<Move>, i: nat): nat
    requires |states| == |moves| + 1 && i < |states|
  {
    if i == 0 then states[0].now
    else if moves[i - 1].Write? then states[i - 1].now
    else LastWrite(states, moves, i - 1)
  }

  /** How often a chain run was asked for, and how often a call answered that. */
  function Asks(moves: seq<Move>): nat {
    if moves == [] then 0 else Asks(moves[..|moves| - 1]) + if moves[|moves| - 1].TimerAsks? then 1 else 0
  }

  function ForcedCalls(moves: seq<Move>): nat {
    if moves == [] then 0
    else
      var m := moves[|moves| - 1];
      ForcedCalls(moves[..|moves| - 1]) + if m.Call? && m.forced then 1 else 0
  }

  /** Over every run: the clock is as it was last restarted, and every forced call was asked for. */
  lemma {:induction false} ForcedCallsAskedFor(c: Config, states: seq<State>, moves: seq<Move>, i: nat)
    requires IsRun(c, states, moves) && i < |states|
    ensures states[i].lastFlush == LastWrite(states, moves, i)
    ensures ForcedCalls(moves[..i]) + (if states[i].forceRun then 1 else 0) <= Asks(moves[..i])
  {
    if i > 0 {
      ForcedCallsAskedFor(c, states, moves, i - 1);
      assert states[i] == Next(c, states[i - 1], moves[i - 1]) && Possible(c, states[i - 1], moves[i - 1]);
      assert moves[..i][..i - 1] == moves[..i - 1];
    }
  }

  /** How many moves the timer can still make by itself. */
  function Rank(s: State): nat {
    (if s.restart then 4 else 0)
    + match s.timer case Computing => 3 case Armed(_) => 2 case Fired => 1 case WaitRestart => 0
  }

  lemma {:induction false} TimerMovesRun(c: Config, s: State, m: Move)
    requires Possible(c, s, m) && IsTimerMove(m)
    ensures Rank(Next(c, s, m)) < Rank(s) <= 7
  {
  }

  /** The state after some moves of the timer alone, if they are possible. */
  function TimerRun(c: Config, s: State, ms: seq<Move>): Option<State> {
    if ms == [] then Some(s)
    else
      var before, m := TimerRun(c, s, ms[..|ms| - 1]), ms[|ms| - 1];
      if before.Some? && IsTimerMove(m) && Possible(c, before.value, m) then Some(Next(c, before.value, m)) else None
  }

  /** The interval is over and the source is between calls. */
  predicate Overdue(c: Config, s: State) {
    Inv(c, s) && s.caller.Idle? && Due(c, s)
  }

  /** The move the timer can make when no chain run has been asked for. */
  function NextTimerMove(s: State): Move {
    match s.timer
    case WaitRestart => TimerTakes
    case Computing => TimerReads
    case Armed(_) => TimerFires
    case Fired => TimerAsks
  }

  lemma {:induction false} TimerCanMove(c: Config, s: State)
    requires Overdue(c, s) && !s.forceRun
    ensures IsTimerMove(NextTimerMove(s)) && Possible(c, s, NextTimerMove(s))
  {
  }

  lemma {:induction false} TimerRunRanked(c: Config, s: State, ms: seq<Move>)
    requires Overdue(c, s) && TimerRun(c, s, ms).Some?
    ensures var t := TimerRun(c, s, ms).value; Overdue(c, t) && Rank(t) + |ms| <= Rank(s)
  {
    if ms != [] {
      TimerRunRanked(c, s, ms[..|ms| - 1]);
      var before, m := TimerRun(c, s, ms[..|ms| - 1]).value, ms[|ms| - 1];
      TimerMovesRun(c, before, m);
      MoveKeepsInv(c, before, m);
    }
  }

  /**
    * Once the interval is over, however the timer moves by itself: it makes at most seven moves, and when it can make
    * no more a chain run has been asked for.
    */
  lemma {:induction false} WakeUpComes(c: Config, states: seq<State>, moves: seq<Move>, i: nat, ms: seq<Move>)
    requires IsRun(c, states, moves) && i < |states| && states[i].caller.Idle? && Due(c, states[i])
    requires TimerRun(c, states[i], ms).Some?
    ensures |ms| <= 7
    ensures var t := TimerRun(c, states[i], ms).value;
            t.forceRun || exists m :: IsTimerMove(m) && Possible(c, t, m)
  {
    RunKeepsInv(c, states, moves, i);
    TimerRunRanked(c, states[i], ms);
    var t := TimerRun(c, states[i], ms).value;
    if !t.forceRun {
      TimerCanMove(c, t);
    }
  }

  /** So a run of the timer alone, of at most seven moves, asks for the chain run. */
  lemma {:induction false} WakeUpReached(c: Config, states: seq<State>, moves: seq<Move>, i: nat)
    returns (ms: seq<Move>)
    requires IsRun(c, states, moves) && i < |states| && states[i].caller.Idle? && Due(c, states[i])
    ensures |ms| <= 7 && TimerRun(c, states[i], ms).Some? && TimerRun(c, states[i], ms).value.forceRun
  {
    RunKeepsInv(c, states, moves, i);
    ms := Onwards(c, states[i], []);
    TimerRunRanked(c, states[i], ms);
  }

  lemma {:induction false} Onwards(c: Config, s: State, done: seq<Move>) returns (ms: seq<Move>)
    requires Overdue(c, s) && TimerRun(c, s, done).Some?
    ensures TimerRun(c, s, ms).Some? && TimerRun(c, s, ms).value.forceRun
    decreases Rank(s) - |done|
  {
    var t := TimerRun(c, s, done).value;
    TimerRunRanked(c, s, done);
    ms := done;
    if !t.forceRun {
      TimerCanMove(c, t);
      var more := done + [NextTimerMove(t)];
      assert more[..|done|] == done;
      TimerRunRanked(c, s, more);
      ms := Onwards(c, s, more);
    }
  }

  /** A forced call once the interval is over sends the whole buffer down, or restarts the clock if there is nothing. */
  lemma {:induction false} ForcedCallFlushes(c: Config, s: State, rs: seq<MessageId>, flush: bool)
    requires Inv(c, s) && s.caller.Idle? && s.forceRun && Due(c, s)
    ensures var t := Next(c, Next(c, s, Call(rs, flush, true)), Decide);
            if s.buffer + rs == [] && !flush then t.caller.Writing?
            else t.caller.Below? && Next(c, t, Return(true)).passed == s.received + rs
  {
    assert s.passed + (s.buffer + rs) == s.passed + s.buffer + rs;
  }
}
