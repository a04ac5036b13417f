// The reconnect client: one loop that dials, reports, waits and dials again,
// and Start and Stop called from any other goroutine. The client's methods are
// cut at every point where another goroutine can run.
module Reconnect {
  import Arithmetic
  import Backoff
  import opened Wrappers

  type Conn = nat

  const PAUSE: int := 200_000_000   // after a lost connection, before the next dial

  datatype Reason = DialFailed | Disconnected

  // Where the loop stands.
  datatype Pc =
    | Idle                     // Start has not run
    | Top                      // about to look at stop
    | Dialing
    | Dialled(conn: Conn)      // Dial returned; about to look at stop
    | Storing(conn: Conn)
    | Notifying(conn: Conn)    // about to look at stop before onConnect
    | InCallback(conn: Conn)   // onConnect is running
    | Waiting(conn: Conn)      // for stop or the end of the connection
    | Ended(conn: Conn)
    | AfterEnd                 // about to look at stop
    | Sleeping(why: Reason, d: int)
    | Exited                   // done is closed

  datatype StopPc = Signalled | ConnClosed | AwaitsLoop

  datatype State = State(
    initial: int, max: int, hasCallback: bool,
    started: bool,
    stopped: bool,                // the stop channel is closed
    conn: Option<Conn>,           // r.conn
    backoff: int,
    pc: Pc,
    launches: nat,                // loops ever started
    failures: nat,                // failed dials since the last connection
    next: Conn,                   // connections are numbered as they are dialled
    open: set<Conn>,              // dialled and not closed
    stoppers: map<nat, StopPc>,   // calls of Stop in progress
    cleanStop: bool)              // some Stop has returned without timing out

  datatype Action =
    | Start
    | LookAtStop                  // at Top, Dialled, Notifying or AfterEnd
    | DialSucceeds | DialFails(fatal: bool)
    | Store
    | CallbackReturns
    | SeeStop | SeeEnd            // the two arms of the wait
    | ClearConn
    | TimerFires | SleepInterrupted
    | Dies(conn: Conn)            // the network or the peer ends a connection
    | Signal(id: nat) | CloseConn(id: nat) | LookAtStarted(id: nat) | LoopGone(id: nat) | TimeOut(id: nat)

  function New(initial: int, max: int, hasCallback: bool): State {
    State(initial, max, hasCallback, false, false, None, initial, Idle, 0, 0, 0, {}, map[], false)
  }

  predicate Enabled(s: State, a: Action) {
    match a
    case Start => true
    case LookAtStop => s.pc.Top? || s.pc.Dialled? || s.pc.Notifying? || s.pc.AfterEnd?
    case DialSucceeds => s.pc.Dialing?
    case DialFails(_) => s.pc.Dialing?
    case Store => s.pc.Storing?
    case CallbackReturns => s.pc.InCallback?
    case SeeStop => s.pc.Waiting? && s.stopped
    case SeeEnd => s.pc.Waiting? && s.pc.conn !in s.open
    case ClearConn => s.pc.Ended?
    case TimerFires => s.pc.Sleeping? && (s.pc.d > 0 || !s.stopped)
    case SleepInterrupted => s.pc.Sleeping? && s.stopped
    case Dies(c) => c in s.open
    case Signal(id) => id !in s.stoppers
    case CloseConn(id) => id in s.stoppers && s.stoppers[id].Signalled?
    case LookAtStarted(id) => id in s.stoppers && s.stoppers[id].ConnClosed?
    case LoopGone(id) => id in s.stoppers && s.stoppers[id].AwaitsLoop? && s.pc.Exited?
    case TimeOut(id) => id in s.stoppers && s.stoppers[id].AwaitsLoop?
  }

  function Next(s: State, a: Action): State
    requires Enabled(s, a)
  {
    match a
    case Start => if s.started then s else s.(started := true, pc := Top, launches := s.launches + 1)
    case LookAtStop => AfterLook(s)
    case DialSucceeds => s.(pc := Dialled(s.next), next := s.next + 1, open := s.open + {s.next})
    case DialFails(fatal) => s.(pc := if fatal then Exited else Sleeping(DialFailed, s.backoff))
    case Store => s.(conn := Some(s.pc.conn), pc := Notifying(s.pc.conn))
    case CallbackReturns => s.(pc := Waiting(s.pc.conn))
    case SeeStop => s.(open := s.open - {s.pc.conn}, pc := Exited)
    case SeeEnd => s.(pc := Ended(s.pc.conn))
    case ClearConn => s.(conn := if s.conn == Some(s.pc.conn) then None else s.conn, pc := AfterEnd)
    case TimerFires =>
      if s.pc.why.DialFailed?
      then s.(backoff := Backoff.ExpBackoff(s.backoff, s.max), failures := s.failures + 1, pc := Top)
      else s.(backoff := s.initial, pc := Top)
    case SleepInterrupted => s.(pc := Exited)
    case Dies(c) => s.(open := s.open - {c})
    case Signal(id) => s.(stopped := true, stoppers := s.stoppers[id := Signalled])
    case CloseConn(id) =>
      s.(open := if s.conn.Some? then s.open - {s.conn.value} else s.open, stoppers := s.stoppers[id := ConnClosed])
    case LookAtStarted(id) =>
      if s.started then s.(stoppers := s.stoppers[id := AwaitsLoop])
      else s.(stoppers := s.stoppers - {id}, cleanStop := true)
    case LoopGone(id) => s.(stoppers := s.stoppers - {id}, cleanStop := true)
    case TimeOut(id) => s.(stoppers := s.stoppers - {id})
  }

  function AfterLook(s: State): State
    requires s.pc.Top? || s.pc.Dialled? || s.pc.Notifying? || s.pc.AfterEnd?
  {
    match s.pc
    case Top => s.(pc := if s.stopped then Exited else Dialing)
    case Dialled(c) =>
      if s.stopped then s.(open := s.open - {c}, pc := Exited)
      else s.(backoff := s.initial, failures := 0, pc := Storing(c))
    case Notifying(c) =>
      if !s.hasCallback then s.(pc := Waiting(c))
      else if s.stopped then s.(open := s.open - {c}, pc := Exited)
      else s.(pc := InCallback(c))
    case AfterEnd => s.(pc := if s.stopped then Exited else Sleeping(Disconnected, PAUSE))
  }

  // The client's fields, and its code between two such points.
  class ReconnectClient {
    const initial: int
    const max: int
    const hasCallback: bool
    var started: bool
    var stopped: bool
    var conn: Option<Conn>
    var backoff: int
    var pc: Pc
    var open: set<Conn>
    var next: Conn
    ghost var launches: nat
    ghost var failures: nat
    ghost var stoppers: map<nat, StopPc>
    ghost var cleanStop: bool

    ghost function View(): State
      reads this
    {
      State(initial, max, hasCallback, started, stopped, conn, backoff, pc, launches, failures, next, open,
          stoppers, cleanStop)
    }

    constructor (initial: int, max: int, hasCallback: bool)
      ensures View() == New(initial, max, hasCallback)
    {
      this.initial, this.max, this.hasCallback := initial, max, hasCallback;
      started, stopped, conn, backoff, pc, open, next := false, false, None, initial, Idle, {}, 0;
      launches, failures, stoppers, cleanStop := 0, 0, map[], false;
    }

    method Start()
      modifies this
      ensures View() == Next(old(View()), Action.Start)
      ensures started && launches == (if old(started) then old(launches) else old(launches) + 1)
      ensures pc == if old(started) then old(pc) else Top
    {
      if started {
        return;
      }
      started := true;
      launches := launches + 1;
      pc := Top;
    }

    method Close(c: Conn)
      modifies this`open
      ensures open == old(open) - {c}
    {
      open := open - {c};
    }

    method LookAtStop()
      requires Enabled(View(), Action.LookAtStop)
      modifies this
      ensures View() == Next(old(View()), Action.LookAtStop)
    {
      match pc {
        case Top =>
          pc := if stopped then Exited else Dialing;
        case Dialled(c) =>
          if stopped {
            Close(c);
            pc := Exited;
          } else {
            backoff, failures := initial, 0;
            pc := Storing(c);
          }
        case Notifying(c) =>
          if !hasCallback {
            pc := Waiting(c);
          } else if stopped {
            Close(c);
            pc := Exited;
          } else {
            pc := InCallback(c);
          }
        case AfterEnd =>
          pc := if stopped then Exited else Sleeping(Disconnected, PAUSE);
      }
    }

    // dialled is what the network answered: None for an error.
    method Dial(connected: bool, fatal: bool)
      requires pc.Dialing?
      modifies this
      ensures View() == Next(old(View()), if connected then DialSucceeds else DialFails(fatal))
    {
      if !connected {
        pc := if fatal then Exited else Sleeping(DialFailed, backoff);
        return;
      }
      open := open + {next};
      pc := Dialled(next);
      next := next + 1;
    }

    method StoreConn()
      requires pc.Storing?
      modifies this
      ensures View() == Next(old(View()), Store)
    {
      conn := Some(pc.conn);
      pc := Notifying(pc.conn);
    }

    // sawStop is the select's choice when stop and the end are both there.
    method Wait(sawStop: bool)
      requires Enabled(View(), if sawStop then SeeStop else SeeEnd)
      modifies this
      ensures View() == Next(old(View()), if sawStop then SeeStop else SeeEnd)
    {
      var c := pc.conn;
      if sawStop {
        Close(c);
        pc := Exited;
      } else {
        pc := Ended(c);
      }
    }

    method ClearEnded()
      requires pc.Ended?
      modifies this
      ensures View() == Next(old(View()), ClearConn)
    {
      if conn == Some(pc.conn) {
        conn := None;
      }
      pc := AfterEnd;
    }

    method Sleep(interrupted: bool)
      requires Enabled(View(), if interrupted then SleepInterrupted else TimerFires)
      modifies this
      ensures View() == Next(old(View()), if interrupted then SleepInterrupted else TimerFires)
    {
      if interrupted {
        pc := Exited;
      } else if pc.why.DialFailed? {
        backoff := Backoff.ExpBackoff(backoff, max);
        failures := failures + 1;
        pc := Top;
      } else {
        backoff := initial;
        pc := Top;
      }
    }

    method StopSignal(ghost id: nat)
      requires id !in stoppers
      modifies this
      ensures View() == Next(old(View()), Signal(id))
    {
      stopped := true;
      stoppers := stoppers[id := Signalled];
    }

    method StopCloseConn(ghost id: nat)
      requires Enabled(View(), CloseConn(id))
      modifies this
      ensures View() == Next(old(View()), CloseConn(id))
    {
      if conn.Some? {
        Close(conn.value);
      }
      stoppers := stoppers[id := ConnClosed];
    }

    method StopMustWait(ghost id: nat) returns (wait: bool)
      requires Enabled(View(), LookAtStarted(id))
      modifies this
      ensures View() == Next(old(View()), LookAtStarted(id)) && wait == old(started)
    {
      wait := started;
      if wait {
        stoppers := stoppers[id := AwaitsLoop];
      } else {
        stoppers, cleanStop := stoppers - {id}, true;
      }
    }
  }

  // ----- every run -----

  ghost predicate Run(states: seq<State>, actions: seq<Action>) {
    && |states| == |actions| + 1
    && (exists initial, max, hasCallback :: states[0] == New(initial, max, hasCallback))
    && forall i :: 0 <= i < |actions| ==> Enabled(states[i], actions[i]) && states[i + 1] == Next(states[i], actions[i])
  }

  predicate HoldsConn(pc: Pc) {
    pc.Dialled? || pc.Storing? || pc.Notifying? || pc.InCallback? || pc.Waiting?
  }

  // The loop answers for at most one connection; all others are closed.
  ghost predicate OneConn(s: State) {
    && (HoldsConn(s.pc) ==> s.open <= {s.pc.conn})
    && (!HoldsConn(s.pc) ==> s.open == {})
  }

  ghost predicate Invariant(s: State) {
    && OneConn(s)
    && (s.pc.Idle? <==> !s.started)
    && s.launches == (if s.started then 1 else 0)
    && s.backoff == Backoff.WaitAfter(s.initial, s.max, s.failures)
    && (s.pc.Sleeping? && s.pc.why.DialFailed? ==> s.pc.d == s.backoff)
    && (s.pc.Sleeping? && s.pc.why.Disconnected? ==> s.failures == 0 && s.pc.d == 200_000_000)
    && (s.pc.Storing? || s.pc.Notifying? || s.pc.InCallback? || s.pc.Waiting? || s.pc.Ended? || s.pc.AfterEnd? ==>
          s.failures == 0)
    && (s.stoppers != map[] || s.cleanStop ==> s.stopped)
    && (s.cleanStop ==> s.pc.Idle? || s.pc.Top? || s.pc.Exited?)
  }

  // The connection that Stop would close is the one the loop is busy with.
  predicate StoresCurrent(s: State) {
    match s.pc
    case Notifying(c) => s.conn == Some(c)
    case InCallback(c) => s.conn == Some(c)
    case Waiting(c) => s.conn == Some(c)
    case Ended(c) => s.conn == Some(c)
    case Exited => true
    case _ => s.conn == None
  }

  lemma StepStoresCurrent(s: State, a: Action)
    requires StoresCurrent(s) && Enabled(s, a) && (s.pc.Idle? <==> !s.started)
    ensures StoresCurrent(Next(s, a))
  {
  }

  // So while onConnect runs, and while the loop waits for a connection to end,
  // Stop closes that very connection; at all other times there is none to close
  // (after the loop's exit, an old one).
  lemma {:induction false} StoredIsCurrent(states: seq<State>, actions: seq<Action>, n: nat)
    requires Run(states, actions) && n <= |actions|
    ensures StoresCurrent(states[n])
  {
    if n > 0 {
      StoredIsCurrent(states, actions, n - 1);
      RunKeepsInvariant(states, actions, n - 1);
      StepStoresCurrent(states[n - 1], actions[n - 1]);
    }
  }

  lemma StopClosesCurrent(states: seq<State>, actions: seq<Action>, n: nat)
    requires Run(states, actions) && n < |actions| && actions[n].CloseConn?
    ensures states[n].pc.InCallback? || states[n].pc.Waiting? ==> states[n].pc.conn !in states[n + 1].open
  {
    StoredIsCurrent(states, actions, n);
  }

  lemma StepKeepsInvariant(s: State, a: Action)
    requires Invariant(s) && Enabled(s, a)
    ensures Invariant(Next(s, a))
  {
  }

  lemma {:induction false} RunKeepsInvariant(states: seq<State>, actions: seq<Action>, n: nat)
    requires Run(states, actions) && n <= |actions|
    ensures Invariant(states[n])
  {
    if n > 0 {
      RunKeepsInvariant(states, actions, n - 1);
      StepKeepsInvariant(states[n - 1], actions[n - 1]);
    }
  }

  // At most one loop; at most one open connection; none once the loop is gone.
  lemma OneLoopOneConnection(states: seq<State>, actions: seq<Action>, n: nat)
    requires Run(states, actions) && n <= |actions|
    ensures states[n].launches <= 1
    ensures |states[n].open| <= 1
    ensures states[n].pc.Exited? ==> states[n].open == {}
  {
    RunKeepsInvariant(states, actions, n);
    var s := states[n];
    if HoldsConn(s.pc) {
      assert s.open == {} || s.open == {s.pc.conn};
    }
  }

  lemma {:induction false} CleanStopLasts(states: seq<State>, actions: seq<Action>, i: nat, j: nat)
    requires Run(states, actions) && i <= j <= |actions| && states[i].cleanStop
    ensures states[j].cleanStop
  {
    if i < j {
      CleanStopLasts(states, actions, i, j - 1);
    }
  }

  // After a Stop that did not time out, onConnect is not running and never runs
  // again, and nothing is dialled; a Start that comes later finds stop closed.
  lemma NothingAfterCleanStop(states: seq<State>, actions: seq<Action>, i: nat, j: nat)
    requires Run(states, actions) && i <= j <= |actions| && states[i].cleanStop
    ensures !states[j].pc.InCallback? && !states[j].pc.Dialing? && states[j].open == {}
  {
    CleanStopLasts(states, actions, i, j);
    RunKeepsInvariant(states, actions, j);
  }

  // Stop returns once the loop is gone, or at once if there never was one; from
  // then on the same holds.
  lemma NothingAfterStopReturned(states: seq<State>, actions: seq<Action>, i: nat, j: nat)
    requires Run(states, actions) && i < j <= |actions|
    requires actions[i].LoopGone? || (actions[i].LookAtStarted? && !states[i].started)
    ensures !states[j].pc.InCallback? && !states[j].pc.Dialing? && states[j].open == {}
  {
    NothingAfterCleanStop(states, actions, i + 1, j);
  }

  // ----- when the loop ends -----

  predicate LoopAction(a: Action) {
    match a
    case Start => false
    case Dies(_) => false
    case Signal(_) => false
    case CloseConn(_) => false
    case LookAtStarted(_) => false
    case LoopGone(_) => false
    case TimeOut(_) => false
    case _ => true
  }

  // It ends by a fatal dial or because it saw the stop signal, and for nothing else.
  lemma LoopEndsExactly(s: State, a: Action)
    requires Enabled(s, a) && s.started && !s.pc.Exited?
    ensures Next(s, a).pc.Exited? <==>
      || a == DialFails(true)
      || a == SeeStop
      || a == SleepInterrupted
      || (a == LookAtStop && s.stopped && (s.pc.Notifying? ==> s.hasCallback))
  {
  }

  lemma {:induction false} EndedOnlyBy(states: seq<State>, actions: seq<Action>, n: nat)
    requires Run(states, actions) && n <= |actions|
    ensures states[n].stopped <==> exists k :: 0 <= k < n && actions[k].Signal?
    ensures states[n].pc.Exited? ==> exists k :: 0 <= k < n && (actions[k].Signal? || actions[k] == DialFails(true))
  {
    if n > 0 {
      EndedOnlyBy(states, actions, n - 1);
      RunKeepsInvariant(states, actions, n - 1);
      if states[n - 1].started && !states[n - 1].pc.Exited? {
        LoopEndsExactly(states[n - 1], actions[n - 1]);
      }
      assert actions[n - 1].Signal? || actions[n - 1] == DialFails(true) ==> 0 <= n - 1 < n;
    }
  }

  // How many steps of its own the loop has left once stop is closed.
  function StepsLeft(pc: Pc): nat {
    match pc
    case Idle => 2
    case Top => 1
    case Dialing => 3
    case Dialled(_) => 1
    case Storing(_) => 6
    case Notifying(_) => 5
    case InCallback(_) => 4
    case Waiting(_) => 3
    case Ended(_) => 2
    case AfterEnd => 1
    case Sleeping(_, _) => 2
    case Exited => 0
  }

  lemma StopWears(s: State, a: Action)
    requires Enabled(s, a) && s.stopped && (s.pc.Idle? <==> !s.started)
    ensures Next(s, a).stopped
    ensures StepsLeft(Next(s, a).pc) + (if LoopAction(a) then 1 else 0) <= StepsLeft(s.pc)
  {
  }

  function LoopSteps(actions: seq<Action>): nat {
    if actions == [] then 0
    else LoopSteps(actions[..|actions| - 1]) + if LoopAction(actions[|actions| - 1]) then 1 else 0
  }

  lemma OneStepMore(actions: seq<Action>, i: nat, j: nat)
    requires i < j <= |actions|
    ensures LoopSteps(actions[i..j]) == LoopSteps(actions[i..j - 1]) + if LoopAction(actions[j - 1]) then 1 else 0
  {
    assert actions[i..j][..j - i - 1] == actions[i..j - 1];
  }

  // After the stop signal the loop takes at most six more steps of its own.
  lemma {:induction false} StopEndsTheLoop(states: seq<State>, actions: seq<Action>, i: nat, j: nat)
    requires Run(states, actions) && i <= j <= |actions| && states[i].stopped
    ensures states[j].stopped
    ensures LoopSteps(actions[i..j]) + StepsLeft(states[j].pc) <= StepsLeft(states[i].pc) <= 6
  {
    if i < j {
      StopEndsTheLoop(states, actions, i, j - 1);
      RunKeepsInvariant(states, actions, j - 1);
      StopWears(states[j - 1], actions[j - 1]);
      OneStepMore(actions, i, j);
    }
  }

  // And it is never stuck: with stop closed, some step of its own is possible.
  lemma StopNeverBlocks(s: State)
    requires s.stopped && s.started && !s.pc.Idle? && !s.pc.Exited?
    ensures exists a :: LoopAction(a) && Enabled(s, a)
  {
    match s.pc
    case Dialing => assert Enabled(s, DialSucceeds);
    case Storing(_) => assert Enabled(s, Store);
    case InCallback(_) => assert Enabled(s, CallbackReturns);
    case Waiting(_) => assert Enabled(s, SeeStop);
    case Ended(_) => assert Enabled(s, ClearConn);
    case Sleeping(_, _) => assert Enabled(s, SleepInterrupted);
    case Top => assert Enabled(s, Action.LookAtStop);
    case Dialled(_) => assert Enabled(s, Action.LookAtStop);
    case Notifying(_) => assert Enabled(s, Action.LookAtStop);
    case AfterEnd => assert Enabled(s, Action.LookAtStop);
  }

  // A connection is opened by the dial that brings it, and closed by its own end,
  // by Stop when it is the stored one, or by the loop when it sees the stop signal
  // with it in hand.
  lemma OpenExactly(s: State, a: Action, c: Conn)
    requires Enabled(s, a)
    ensures c !in s.open ==> (c in Next(s, a).open <==> a == DialSucceeds && c == s.next)
    ensures c in s.open ==>
      (c !in Next(s, a).open <==>
        || a == Dies(c)
        || (a.CloseConn? && s.conn == Some(c))
        || (a == SeeStop && s.pc.conn == c)
        || (a == LookAtStop && s.stopped && s.pc == Dialled(c))
        || (a == LookAtStop && s.stopped && s.hasCallback && s.pc == Notifying(c)))
  {
  }

  // The loop never waits for a connection whose onConnect has not run, if there is
  // one to run.
  lemma {:induction false} WaitedWasCalled(states: seq<State>, actions: seq<Action>, n: nat)
    requires Run(states, actions) && n <= |actions|
    ensures states[n].pc.InCallback? ==> states[n].hasCallback
    ensures states[n].pc.Waiting? && states[n].hasCallback ==>
              exists k :: 0 <= k < n && states[k].pc == InCallback(states[n].pc.conn)
  {
    if n > 0 {
      WaitedWasCalled(states, actions, n - 1);
      CallbackStep(states[n - 1], actions[n - 1]);
      CalledStep(states[n - 1], actions[n - 1]);
    }
  }

  lemma CallbackStep(s: State, a: Action)
    requires Enabled(s, a)
    ensures Next(s, a).hasCallback == s.hasCallback
    ensures Next(s, a).pc.InCallback? ==> s.pc.InCallback? || s.hasCallback
  {
  }

  lemma CalledStep(s: State, a: Action)
    requires Enabled(s, a)
    ensures Next(s, a).pc.Waiting? && s.hasCallback ==>
              s.pc == InCallback(Next(s, a).pc.conn) || s.pc == Next(s, a).pc
  {
  }

  // ----- waiting -----

  predicate Dials(a: Action) {
    a.DialSucceeds? || a.DialFails?
  }

  // Between two dials the loop has slept.
  lemma SleepsBetweenDials(states: seq<State>, actions: seq<Action>, i: nat, j: nat)
    requires Run(states, actions) && i < j < |actions| && Dials(actions[i]) && Dials(actions[j])
    ensures exists k :: i < k < j && actions[k].TimerFires?
  {
    if forall k :: i < k < j ==> !actions[k].TimerFires? {
      AwayFromDial(states, actions, i, j);
    }
  }

  lemma {:induction false} AwayFromDial(states: seq<State>, actions: seq<Action>, i: nat, j: nat)
    requires Run(states, actions) && i < j <= |actions| && Dials(actions[i])
    requires forall k :: i < k < j ==> !actions[k].TimerFires?
    ensures states[j].started && !states[j].pc.Top? && !states[j].pc.Dialing?
  {
    RunKeepsInvariant(states, actions, j - 1);
    if i + 1 == j {
      DialLeads(states[i], actions[i]);
    } else {
      AwayFromDial(states, actions, i, j - 1);
      OnlyTimerLeadsBack(states[j - 1], actions[j - 1]);
    }
  }

  lemma DialLeads(s: State, a: Action)
    requires Enabled(s, a) && Dials(a) && (s.pc.Idle? <==> !s.started)
    ensures Next(s, a).started && !Next(s, a).pc.Top? && !Next(s, a).pc.Dialing?
  {
  }

  lemma OnlyTimerLeadsBack(s: State, a: Action)
    requires Enabled(s, a) && !a.TimerFires? && s.started && !s.pc.Top? && !s.pc.Dialing? && !s.pc.Idle?
    ensures Next(s, a).started && !Next(s, a).pc.Top? && !Next(s, a).pc.Dialing?
  {
  }

  // Failed dials since the last one that succeeded.
  function Fails(actions: seq<Action>): nat {
    if actions == [] then 0
    else match actions[|actions| - 1]
      case DialSucceeds => 0
      case DialFails(_) => Fails(actions[..|actions| - 1]) + 1
      case _ => Fails(actions[..|actions| - 1])
  }

  predicate FailuresAre(s: State, fails: nat) {
    match s.pc
    case Dialled(_) => fails == 0
    case Exited => true
    case Sleeping(why, d) => fails == if why.DialFailed? then s.failures + 1 else 0
    case _ => s.failures == fails
  }

  lemma {:induction false} FailuresCounted(states: seq<State>, actions: seq<Action>, n: nat)
    requires Run(states, actions) && n <= |actions|
    ensures FailuresAre(states[n], Fails(actions[..n]))
  {
    if n > 0 {
      FailuresCounted(states, actions, n - 1);
      RunKeepsInvariant(states, actions, n - 1);
      assert actions[..n][..n - 1] == actions[..n - 1];
      StepCountsFailures(states[n - 1], actions[n - 1], Fails(actions[..n - 1]), Fails(actions[..n]));
    }
  }

  lemma StepCountsFailures(s: State, a: Action, before: nat, after: nat)
    requires Invariant(s) && Enabled(s, a) && FailuresAre(s, before)
    requires after == if a.DialSucceeds? then 0 else if a.DialFails? then before + 1 else before
    ensures FailuresAre(Next(s, a), after)
  {
  }

  // After the k-th failed dial in a row the loop sleeps min(initial * 2^(k-1), max),
  // and after the end of a connection always 200 ms.
  lemma KthWait(states: seq<State>, actions: seq<Action>, n: nat)
    requires Run(states, actions) && n <= |actions| && states[n].pc.Sleeping?
    ensures states[n].pc.why.Disconnected? ==> states[n].pc.d == 200_000_000
    ensures states[n].pc.why.DialFailed? ==> Fails(actions[..n]) > 0
    ensures states[n].pc.why.DialFailed? && 0 < states[n].initial <= states[n].max < 0x4000_0000_0000_0000 ==>
      var doubled := states[n].initial * Arithmetic.Pow2(Fails(actions[..n]) - 1);
      states[n].pc.d == if doubled <= states[n].max then doubled else states[n].max
  {
    RunKeepsInvariant(states, actions, n);
    FailuresCounted(states, actions, n);
    if states[n].pc.why.DialFailed? && 0 < states[n].initial <= states[n].max < Backoff.HALF / 2 {
      Backoff.WaitsDoubleUpToMax(states[n].initial, states[n].max, states[n].failures);
    }
  }
}
