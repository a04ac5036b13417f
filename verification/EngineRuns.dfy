// What holds of the client's engine operations in every run, whatever is clicked
// and whenever the background work reports back.
module EngineRuns {
  import opened EngineQueue
  import opened Wrappers

  ghost predicate Run(states: seq<State>, actions: seq<Action>) {
    && |states| == |actions| + 1
    && states[0] == FRESH
    && forall i :: 0 <= i < |actions| ==> Enabled(states[i], actions[i]) && states[i + 1] == Next(states[i], actions[i])
  }

  // The engines a background task answers for.
  function Carried(t: Task): seq<Engine> {
    match t
    case Stopping(todo, _) => todo
    case Restart(prior, _, _, _, pc) =>
      if pc.StopOld? then Present(prior) else if pc.Returned? then Present(pc.eng) else []
  }

  function CarriedTimes(tasks: seq<Task>, e: Engine): nat {
    if tasks == [] then 0 else multiset(Carried(tasks[0]))[e] + CarriedTimes(tasks[1..], e)
  }

  // How often e is found among the engines stopped, mounted or in some task's hands.
  function Places(s: State, e: Engine): nat {
    multiset(s.stops)[e] + (if s.eng == Some(e) then 1 else 0) + CarriedTimes(s.tasks, e)
  }

  ghost predicate EachOnce(s: State) {
    forall e: Engine :: Places(s, e) == if e < s.next then 1 else 0
  }

  ghost predicate TaskOk(s: State, t: Task) {
    match t
    case Stopping(_, after) => !after.Nothing?
    case Restart(_, _, gen, begun, pc) =>
      && begun <= s.registered
      && (begun == s.registered ==> gen == s.opGen)
      && (begun < s.registered ==> !s.intent.NoIntent?)
      && (pc.Returned? ==> (pc.eng.None? <==> pc.err.Aborted?))
  }

  // One background task while busy, none otherwise; no engine mounted meanwhile.
  ghost predicate Tidy(s: State) {
    && |s.tasks| == (if s.busy then 1 else 0)
    && (s.busy ==> s.eng.None? && TaskOk(s, s.tasks[0]))
    && (s.quit ==> !s.busy && s.eng.None?)
  }

  predicate IsClick(a: Action) {
    a.ClickReconnect? || a.ClickLogout? || a.ClickQuit? || a.ClickConnect? || a.LoginFails? || a.DataplaneFails?
  }

  lemma ClickKeepsTidy(s: State, a: Action)
    requires Tidy(s) && Enabled(s, a) && IsClick(a)
    ensures Tidy(Next(s, a))
  {
  }

  lemma TaskStepKeepsTidy(s: State, a: Action)
    requires Tidy(s) && Enabled(s, a) && !IsClick(a)
    ensures Tidy(Next(s, a))
  {
  }

  lemma StepKeepsTidy(s: State, a: Action)
    requires Tidy(s) && Enabled(s, a)
    ensures Tidy(Next(s, a))
  {
    if IsClick(a) {
      ClickKeepsTidy(s, a);
    } else {
      TaskStepKeepsTidy(s, a);
    }
  }

  function One(o: Option<Engine>, e: Engine): nat {
    if o == Some(e) then 1 else 0
  }

  function Started(s: State, t: State, e: Engine): nat {
    if t.next != s.next && e == s.next then 1 else 0
  }

  // With no other task about, the places of e are plain to count.
  lemma OneTask(s: State, e: Engine)
    requires |s.tasks| <= 1
    ensures (Places(s, e)
             == multiset(s.stops)[e] + One(s.eng, e) + (if s.tasks == [] then 0 else multiset(Carried(s.tasks[0]))[e]))
  {
    if s.tasks != [] {
      assert s.tasks[1..] == [];
      assert CarriedTimes(s.tasks[1..], e) == 0;
    }
  }

  lemma PresentOnce(o: Option<Engine>, e: Engine)
    ensures multiset(Present(o))[e] == One(o, e)
  {
  }

  // Handing over to a chain of stops loses no engine and doubles none.
  lemma StopAllMoves(s: State, chain: seq<Engine>, after: Then, e: Engine)
    requires s.tasks == []
    ensures Places(StopAll(s, chain, after), e) == Places(s, e) + multiset(chain)[e]
  {
    OneTask(s, e);
    OneTask(StopAll(s, chain, after), e);
  }

  lemma DispatchMoves(s: State, intent: Intent, creds: Credentials, orphan: Option<Engine>, e: Engine)
    requires s.tasks == []
    ensures Places(Dispatch(s, intent, creds, orphan), e) == Places(s, e) + One(orphan, e)
  {
    PresentOnce(s.eng, e);
    PresentOnce(orphan, e);
    if intent.NoIntent? {
      StopAllMoves(s, Present(orphan), OrphanGone, e);
    } else {
      var after := match intent case Logout => QueuedLogout case Quit => QueuedQuit case _ => QueuedReconnect(creds);
      StopAllMoves(s.(eng := None), Present(s.eng) + Present(orphan), after, e);
    }
  }

  lemma FinishRestartMoves(s: State, eng: Option<Engine>, err: Error, gen: int, e: Engine)
    requires s.tasks == [] && s.eng.None? && (err.Aborted? ==> eng.None?)
    ensures Places(FinishRestart(s, eng, err, gen), e) == Places(s, e) + One(eng, e)
  {
    PresentOnce(eng, e);
    DispatchMoves(Taken(s), s.intent, s.creds, eng, e);
    StopAllMoves(Taken(s), Present(eng), OrphanGone, e);
  }

  lemma StopMountedMoves(s: State, after: Then, e: Engine)
    requires s.tasks == []
    ensures Places(StopMounted(s, after), e) == Places(s, e)
  {
    PresentOnce(s.eng, e);
    StopAllMoves(s.(busy := true, eng := None), Present(s.eng), after, e);
  }

  lemma ConnectMoves(s: State, prepared: bool, e: Engine)
    requires s.tasks == [] && !s.busy
    ensures Places(Connect(s, prepared), e) == Places(s, e) + Started(s, Connect(s, prepared), e)
  {
    StopMountedMoves(s, LoginCleared, e);
  }

  lemma BeginRestartMoves(s: State, prior: Option<Engine>, creds: Credentials, e: Engine)
    requires s.tasks == []
    ensures Places(BeginRestart(s, prior, creds), e) == Places(s, e) + One(prior, e)
  {
    PresentOnce(prior, e);
    OneTask(s, e);
    OneTask(BeginRestart(s, prior, creds), e);
  }

  lemma FollowedMoves(s: State, after: Then, prepared: bool, e: Engine)
    requires s.tasks == [] && s.eng.None?
    ensures Places(Followed(s, after, prepared), e) == Places(s, e) + Started(s, Followed(s, after, prepared), e)
  {
    match after {
      case LogoutOp => DispatchMoves(Taken(s), s.intent, s.creds, None, e);
      case QuitOp => DispatchMoves(Taken(s), s.intent, s.creds, None, e);
      case QueuedReconnect(creds) => BeginRestartMoves(s, None, creds, e);
      case LoginCleared => ConnectMoves(s.(busy := false), prepared, e);
      case _ =>
    }
  }

  // A click moves engines about; only Connect adds one, fresh.
  lemma ClickMoves(s: State, a: Action, e: Engine)
    requires Tidy(s) && Enabled(s, a) && IsClick(a)
    ensures Places(Next(s, a), e) == Places(s, e) + Started(s, Next(s, a), e)
  {
    if !s.busy {
      match a {
        case ClickReconnect(creds) => BeginRestartMoves(s.(busy := true, eng := None), s.eng, creds, e);
        case ClickLogout => StopMountedMoves(s, LogoutOp, e);
        case ClickQuit => StopMountedMoves(s, QuitOp, e);
        case ClickConnect(prepared) => ConnectMoves(s, prepared, e);
        case LoginFails(f) => StopAllMoves(s.(eng := None, busy := true), [f], LoginFailed, e);
        case DataplaneFails(_) => StopMountedMoves(s, LogoutOp, e);
      }
    }
  }

  // What a task carried when it ended, the step that ends it places again.
  lemma EndMoves(s: State, i: nat, e: Engine)
    requires Tidy(s) && i < |s.tasks|
    ensures Without(s, i).tasks == []
    ensures Places(s, e) == Places(Without(s, i), e) + multiset(Carried(s.tasks[i]))[e]
  {
    OneTask(s, e);
    OneTask(Without(s, i), e);
  }

  lemma AdvanceMoves(s: State, i: nat, pc: RestartPc, e: Engine)
    requires Tidy(s) && IsRestart(s, i)
    ensures (Places(Advance(s, i, pc), e) + multiset(Carried(s.tasks[i]))[e]
             == Places(s, e) + multiset(Carried(s.tasks[i].(pc := pc)))[e])
  {
    OneTask(s, e);
    OneTask(Advance(s, i, pc), e);
  }

  lemma RestartStepMoves(s: State, a: Action, e: Engine)
    requires Tidy(s) && Enabled(s, a) && (a.OldStopped? || a.AskAbort? || a.DnsSettled?)
    ensures Places(Next(s, a), e) == Places(s, e) + Started(s, Next(s, a), e)
  {
    if a.OldStopped? {
      PresentOnce(s.tasks[a.i].prior, e);
    }
    AdvanceMoves(s, a.i, Next(s, a).tasks[a.i].pc, e);
  }

  lemma StartReturnsMoves(s: State, i: nat, ok: bool, e: Engine)
    requires Tidy(s) && Enabled(s, StartReturns(i, ok))
    ensures Places(Next(s, StartReturns(i, ok)), e) == Places(s, e) + (if e == s.next then 1 else 0)
  {
    AdvanceMoves(s, i, Returned(Some(s.next), if ok then NoError else StartFailed), e);
    PresentOnce(Some(s.next), e);
  }

  lemma StopMoves(s: State, i: nat, e: Engine)
    requires Tidy(s) && Enabled(s, StopReturns(i))
    ensures Places(Next(s, StopReturns(i)), e) == Places(s, e)
  {
    var todo := s.tasks[i].todo;
    assert todo == [todo[0]] + todo[1..];
    OneTask(s, e);
    OneTask(Next(s, StopReturns(i)), e);
  }

  lemma FinishedMoves(s: State, i: nat, e: Engine)
    requires Tidy(s) && Enabled(s, Finished(i))
    ensures Places(Next(s, Finished(i)), e) == Places(s, e)
  {
    var pc := s.tasks[i].pc;
    EndMoves(s, i, e);
    PresentOnce(pc.eng, e);
    FinishRestartMoves(Without(s, i), pc.eng, pc.err, s.tasks[i].gen, e);
  }

  lemma ChainDoneMoves(s: State, i: nat, prepared: bool, e: Engine)
    requires Tidy(s) && Enabled(s, ChainDone(i, prepared))
    ensures (Places(Next(s, ChainDone(i, prepared)), e)
             == Places(s, e) + Started(s, Next(s, ChainDone(i, prepared)), e))
  {
    EndMoves(s, i, e);
    FollowedMoves(Without(s, i), s.tasks[i].after, prepared, e);
  }

  lemma TaskStepMoves(s: State, a: Action, e: Engine)
    requires Tidy(s) && Enabled(s, a) && !IsClick(a)
    ensures Places(Next(s, a), e) == Places(s, e) + Started(s, Next(s, a), e)
  {
    match a {
      case Finished(i) => FinishedMoves(s, i, e);
      case ChainDone(i, prepared) => ChainDoneMoves(s, i, prepared, e);
      case StopReturns(i) => StopMoves(s, i, e);
      case StartReturns(i, ok) => StartReturnsMoves(s, i, ok, e);
      case _ => RestartStepMoves(s, a, e);
    }
  }

  lemma OneMoreAtMost(s: State, a: Action)
    requires Enabled(s, a)
    ensures s.next <= Next(s, a).next <= s.next + 1
  {
  }

  lemma StepKeepsLedger(s: State, a: Action)
    requires Tidy(s) && EachOnce(s) && Enabled(s, a)
    ensures EachOnce(Next(s, a))
  {
    forall e: Engine
      ensures Places(Next(s, a), e) == if e < Next(s, a).next then 1 else 0
    {
      OneMoreAtMost(s, a);
      if IsClick(a) {
        ClickMoves(s, a, e);
      } else {
        TaskStepMoves(s, a, e);
      }
    }
  }

  lemma {:induction false} RunKeepsInvariant(states: seq<State>, actions: seq<Action>, n: nat)
    requires Run(states, actions) && n <= |actions|
    ensures Tidy(states[n]) && EachOnce(states[n])
  {
    if n > 0 {
      RunKeepsInvariant(states, actions, n - 1);
      StepKeepsTidy(states[n - 1], actions[n - 1]);
      StepKeepsLedger(states[n - 1], actions[n - 1]);
    }
  }

  // ----- what every run keeps -----

  // One operation at a time, so at most one HardRestart; while it runs no engine
  // is mounted, so mounting never overwrites one.
  lemma OneOperationAtATime(states: seq<State>, actions: seq<Action>, n: nat)
    requires Run(states, actions) && n <= |actions|
    ensures |states[n].tasks| <= 1 && (states[n].busy <==> states[n].tasks != [])
    ensures states[n].busy ==> states[n].eng.None?
  {
    RunKeepsInvariant(states, actions, n);
  }

  // Each engine ever started is mounted, or in one task's hands, or was told to
  // stop: exactly one of these, and told at most once.
  lemma EveryEngineInOnePlace(states: seq<State>, actions: seq<Action>, n: nat, e: Engine)
    requires Run(states, actions) && n <= |actions|
    ensures Places(states[n], e) == if e < states[n].next then 1 else 0
  {
    RunKeepsInvariant(states, actions, n);
  }

  // HardRestart's engine is mounted exactly when it started and no intent waits;
  // then none was accepted since the restart began and the generation stands.
  // Otherwise the engine, if there is one, is all that the next chain stops.
  lemma MountsExactly(states: seq<State>, actions: seq<Action>, n: nat, i: nat)
    requires Run(states, actions) && n < |actions| && actions[n] == Finished(i)
    ensures IsRestart(states[n], i) && states[n].tasks[i].pc.Returned?
    ensures var t := states[n].tasks[i];
            && (states[n + 1].eng.Some? <==> t.pc.err.NoError? && states[n].intent.NoIntent?)
            && (states[n + 1].eng.Some? ==>
                  states[n + 1].eng == t.pc.eng && states[n].opGen == t.gen && states[n].registered == t.begun)
            && (states[n + 1].eng.None? && t.pc.eng.Some? ==>
                  |states[n + 1].tasks| == 1 && states[n + 1].tasks[0].Stopping?
                  && states[n + 1].tasks[0].todo == [t.pc.eng.value])
  {
    RunKeepsInvariant(states, actions, n);
    assert Enabled(states[n], actions[n]);
    FinishExactly(states[n], i);
  }

  lemma FinishExactly(s: State, i: nat)
    requires Tidy(s) && Enabled(s, Finished(i))
    ensures var u := Next(s, Finished(i));
            var t := s.tasks[i];
            && (u.eng.Some? <==> t.pc.err.NoError? && s.intent.NoIntent?)
            && (u.eng.Some? ==> u.eng == t.pc.eng && s.opGen == t.gen && s.registered == t.begun)
            && (u.eng.None? && t.pc.eng.Some? ==>
                  |u.tasks| == 1 && u.tasks[0].Stopping? && u.tasks[0].todo == [t.pc.eng.value])
  {
    assert Without(s, i).tasks == [];
    assert forall o: Option<Engine> :: Present(None) + Present(o) == Present(o);
  }

  // Just before it starts an engine, a restart has looked: nothing but reconnects
  // that had been swallowed was accepted since it began, and no logout or quit waits.
  ghost predicate LookedAndWentOn(s: State, a: Action, t: Task) {
    && a == AskAbort(0) && |s.tasks| == 1 && t.Restart? && s.tasks[0] == t.(pc := BeforeStart)
    && s.opGen == t.gen && s.intent != Logout && s.intent != Quit
  }

  predicate IsStarting(s: State) {
    |s.tasks| == 1 && s.tasks[0].Restart? && s.tasks[0].pc.Starting?
  }

  lemma {:induction false} LookedBeforeStart(states: seq<State>, actions: seq<Action>, n: nat) returns (k: nat)
    requires Run(states, actions) && n <= |actions| && IsStarting(states[n])
    ensures k < n && LookedAndWentOn(states[k], actions[k], states[n].tasks[0])
    ensures forall m :: k < m <= n ==> states[m].tasks == states[n].tasks
  {
    RunKeepsInvariant(states, actions, n - 1);
    StartingFrom(states[n - 1], actions[n - 1]);
    if IsStarting(states[n - 1]) {
      k := LookedBeforeStart(states, actions, n - 1);
    } else {
      k := n - 1;
    }
  }

  lemma StartingFrom(s: State, a: Action)
    requires Tidy(s) && Enabled(s, a) && IsStarting(Next(s, a))
    ensures IsStarting(s) ==> Next(s, a).tasks == s.tasks
    ensures !IsStarting(s) ==> LookedAndWentOn(s, a, Next(s, a).tasks[0])
  {
  }

  predicate Hands(s: State, e: Engine, err: Error) {
    |s.tasks| == 1 && s.tasks[0].Restart? && s.tasks[0].pc == Returned(Some(e), err)
  }

  // The error a restart hands back with an engine is what its Start answered.
  lemma {:induction false} HandsWhatStarted(states: seq<State>, actions: seq<Action>, n: nat, e: Engine, err: Error)
      returns (k: nat)
    requires Run(states, actions) && n <= |actions| && Hands(states[n], e, err)
    ensures k < n && IsStarting(states[k]) && states[k].next == e
    ensures (actions[k] == StartReturns(0, true) && err.NoError?)
         || (actions[k] == StartReturns(0, false) && err.StartFailed?)
  {
    RunKeepsInvariant(states, actions, n - 1);
    HandsFrom(states[n - 1], actions[n - 1], e, err);
    if Hands(states[n - 1], e, err) {
      k := HandsWhatStarted(states, actions, n - 1, e, err);
    } else {
      k := n - 1;
    }
  }

  lemma HandsFrom(s: State, a: Action, e: Engine, err: Error)
    requires Tidy(s) && Enabled(s, a) && Hands(Next(s, a), e, err)
    ensures Hands(s, e, err) || (IsStarting(s) && s.next == e
              && ((a == StartReturns(0, true) && err.NoError?) || (a == StartReturns(0, false) && err.StartFailed?)))
  {
  }

  // What the end of a HardRestart leads to. A queued intent is taken and carried
  // out once the engine, if one was started, has been stopped; with none queued, a
  // started engine is mounted, a failed one stopped, and the client idle in the end.
  lemma RestartEndsExactly(states: seq<State>, actions: seq<Action>, n: nat, i: nat)
    requires Run(states, actions) && n < |actions| && actions[n] == Finished(i)
    ensures IsRestart(states[n], i) && states[n].tasks[i].pc.Returned?
    ensures var s, u, e := states[n], states[n + 1], states[n].tasks[i].pc.eng;
      && u == s.(tasks := u.tasks, busy := u.busy, eng := u.eng, intent := NoIntent, creds := Credentials("", ""))
      && u.busy == (u.tasks != [])
      && (!u.busy ==> s.intent.NoIntent? && u.eng == e && !states[n].tasks[i].pc.err.StartFailed?)
      && (u.busy ==>
            && u.eng.None?
            && u.tasks == [Stopping(if e.Some? then [e.value] else [],
                                    match s.intent
                                    case Logout => QueuedLogout
                                    case Quit => QueuedQuit
                                    case Reconnect => QueuedReconnect(s.creds)
                                    case NoIntent => OrphanGone)]
            && (s.intent.NoIntent? ==> states[n].tasks[i].pc.err.StartFailed?))
  {
    RunKeepsInvariant(states, actions, n);
    assert Enabled(states[n], actions[n]);
    FinishEndsExactly(states[n], i);
  }

  lemma FinishEndsExactly(s: State, i: nat)
    requires Tidy(s) && Enabled(s, Finished(i))
    ensures var u, e := Next(s, Finished(i)), s.tasks[i].pc.eng;
      && u == s.(tasks := u.tasks, busy := u.busy, eng := u.eng, intent := NoIntent, creds := Credentials("", ""))
      && u.busy == (u.tasks != [])
      && (!u.busy ==> s.intent.NoIntent? && u.eng == e && !s.tasks[i].pc.err.StartFailed?)
      && (u.busy ==>
            && u.eng.None?
            && u.tasks == [Stopping(if e.Some? then [e.value] else [],
                                    match s.intent
                                    case Logout => QueuedLogout
                                    case Quit => QueuedQuit
                                    case Reconnect => QueuedReconnect(s.creds)
                                    case NoIntent => OrphanGone)]
            && (s.intent.NoIntent? ==> s.tasks[i].pc.err.StartFailed?))
  {
    assert Without(s, i).tasks == [];
    assert forall o: Option<Engine> :: Present(None) + Present(o) == Present(o);
  }

  // What the end of a chain of stops leads to.
  lemma ChainEndsExactly(s: State, i: nat, prepared: bool)
    requires Tidy(s) && Enabled(s, ChainDone(i, prepared))
    ensures var u := Next(s, ChainDone(i, prepared));
      && (s.tasks[i].after.QueuedLogout? || s.tasks[i].after.OrphanGone? || s.tasks[i].after.LoginFailed? ==>
            u == s.(tasks := [], busy := false))
      && (s.tasks[i].after.QueuedQuit? ==> u == s.(tasks := [], busy := false, quit := true))
      && (s.tasks[i].after.QueuedReconnect? ==>
            u == s.(tasks := [Restart(None, s.tasks[i].after.creds, s.opGen, s.registered, StopOld)]))
      && (s.tasks[i].after.LoginCleared? ==>
            u == s.(tasks := [], busy := false, eng := if prepared then Some(s.next) else None,
                    next := if prepared then s.next + 1 else s.next))
      && ((s.tasks[i].after.LogoutOp? || s.tasks[i].after.QuitOp?) && s.intent.NoIntent? ==>
            u == s.(tasks := [], busy := false, quit := s.tasks[i].after.QuitOp?, creds := Credentials("", "")))
      && ((s.tasks[i].after.LogoutOp? || s.tasks[i].after.QuitOp?) && !s.intent.NoIntent? ==>
            u == s.(intent := NoIntent, creds := Credentials("", ""),
                    tasks := [Stopping([], match s.intent
                                           case Logout => QueuedLogout
                                           case Quit => QueuedQuit
                                           case _ => QueuedReconnect(s.creds))]))
  {
    assert Without(s, i).tasks == [];
    assert Present(None) + Present(None) == [];
  }

  // When the application quits, every engine it ever started was told to stop, once.
  lemma QuitLeavesNothing(states: seq<State>, actions: seq<Action>, n: nat, e: Engine)
    requires Run(states, actions) && n <= |actions| && states[n].quit
    ensures states[n].eng.None? && states[n].tasks == []
    ensures multiset(states[n].stops)[e] == if e < states[n].next then 1 else 0
  {
    RunKeepsInvariant(states, actions, n);
    assert Places(states[n], e) == if e < states[n].next then 1 else 0;
    OneTask(states[n], e);
  }

  // ----- queued intents -----

  ghost predicate Dispatched(s: State) {
    && s.intent.NoIntent? && |s.tasks| == 1
    && s.tasks[0].Stopping? && (s.tasks[0].after.QueuedLogout? || s.tasks[0].after.QueuedQuit?)
  }

  lemma EndingIntentKept(s: State, a: Action)
    requires Tidy(s) && Enabled(s, a) && s.intent.Ends()
    ensures Next(s, a).intent.Ends() || Dispatched(Next(s, a))
  {
    if IsClick(a) {
      ClickKeepsEnding(s, a);
    } else {
      TaskStepKeepsEnding(s, a);
    }
  }

  lemma ClickKeepsEnding(s: State, a: Action)
    requires Tidy(s) && Enabled(s, a) && s.intent.Ends() && IsClick(a)
    ensures Next(s, a).intent.Ends()
  {
  }

  lemma TaskStepKeepsEnding(s: State, a: Action)
    requires Tidy(s) && Enabled(s, a) && s.intent.Ends() && !IsClick(a)
    ensures Next(s, a).intent.Ends() || Dispatched(Next(s, a))
  {
  }

  // A queued logout or quit stays queued, as one of the two, until a logout or a
  // quit is carried out; a later reconnect does not replace it.
  lemma {:induction false} EndingIntentIsCarriedOut(states: seq<State>, actions: seq<Action>, i: nat, j: nat)
    requires Run(states, actions) && i <= j <= |actions| && states[i].intent.Ends()
    ensures states[j].intent.Ends() || exists k :: i < k <= j && Dispatched(states[k])
  {
    if i < j {
      EndingIntentIsCarriedOut(states, actions, i, j - 1);
      if states[j - 1].intent.Ends() {
        RunKeepsInvariant(states, actions, j - 1);
        EndingIntentKept(states[j - 1], actions[j - 1]);
      }
    }
  }

  // Step k clicked reconnect with these credentials while busy, and no step
  // between k and n clicked reconnect while busy.
  ghost predicate LastClick(states: seq<State>, actions: seq<Action>, k: int, n: nat, creds: Credentials) {
    && 0 <= k < n <= |actions| < |states|
    && actions[k] == ClickReconnect(creds) && states[k].busy
    && forall m :: k < m < n && actions[m].ClickReconnect? ==> !states[m].busy
  }

  // A reconnect in the queue is the latest one clicked while busy, with its
  // credentials.
  lemma {:induction false} QueuedReconnectIsLatest(states: seq<State>, actions: seq<Action>, n: nat)
    requires Run(states, actions) && n <= |actions| && states[n].intent.Reconnect?
    ensures exists k :: LastClick(states, actions, k, n, states[n].creds)
  {
    var c := states[n].creds;
    ReconnectAt(states, actions, n);
    if actions[n - 1] == ClickReconnect(c) && states[n - 1].busy {
      assert LastClick(states, actions, n - 1, n, c);
    } else {
      QueuedReconnectIsLatest(states, actions, n - 1);
      var k :| LastClick(states, actions, k, n - 1, c);
      assert LastClick(states, actions, k, n, c);
    }
  }

  lemma ReconnectAt(states: seq<State>, actions: seq<Action>, n: nat)
    requires Run(states, actions) && n <= |actions| && states[n].intent.Reconnect?
    ensures n > 0
    ensures var s, a := states[n - 1], actions[n - 1];
            || (a == ClickReconnect(states[n].creds) && s.busy)
            || (s.intent.Reconnect? && states[n].creds == s.creds && (a.ClickReconnect? ==> !s.busy))
  {
    RunKeepsInvariant(states, actions, n - 1);
    assert Enabled(states[n - 1], actions[n - 1]) && states[n] == Next(states[n - 1], actions[n - 1]);
    ReconnectComesFromClick(states[n - 1], actions[n - 1]);
  }

  lemma ReconnectComesFromClick(s: State, a: Action)
    requires Tidy(s) && Enabled(s, a) && Next(s, a).intent.Reconnect?
    ensures ((a == ClickReconnect(Next(s, a).creds) && s.busy)
             || (s.intent.Reconnect? && Next(s, a).creds == s.creds && (a.ClickReconnect? ==> !s.busy)))
  {
  }

  // The callbacks that look at the queue before they let go.
  predicate LooksAtQueue(after: Then) {
    after.LogoutOp? || after.QuitOp?
  }

  // An operation ends with an intent still queued exactly when its last callback
  // is one that does not look: an intent can outlive the operation it waited for.
  lemma IntentLeftBehind(states: seq<State>, actions: seq<Action>, n: nat)
    requires Run(states, actions) && n < |actions| && states[n].busy && !states[n + 1].busy
    ensures (!states[n + 1].intent.NoIntent?
             <==> actions[n].ChainDone? && actions[n].i < |states[n].tasks| && states[n].tasks[actions[n].i].Stopping?
                  && !LooksAtQueue(states[n].tasks[actions[n].i].after) && !states[n].intent.NoIntent?)
  {
    RunKeepsInvariant(states, actions, n);
    assert Enabled(states[n], actions[n]);
    LeftBehind(states[n], actions[n]);
  }

  lemma LeftBehind(s: State, a: Action)
    requires Tidy(s) && Enabled(s, a) && s.busy && !Next(s, a).busy
    ensures (!Next(s, a).intent.NoIntent?
             <==> a.ChainDone? && IsStopping(s, a.i) && !LooksAtQueue(s.tasks[a.i].after) && !s.intent.NoIntent?)
  {
  }

  // A run that ends in s, one step longer.
  ghost predicate Leads(states: seq<State>, actions: seq<Action>, s: State) {
    Run(states, actions) && states[|actions|] == s
  }

  lemma OneStepMore(states: seq<State>, actions: seq<Action>, s: State, a: Action)
      returns (states': seq<State>, actions': seq<Action>, t: State)
    requires Leads(states, actions, s) && Enabled(s, a)
    ensures t == Next(s, a) && states' == states + [t] && actions' == actions + [a] && Leads(states', actions', t)
  {
    t := Next(s, a);
    states', actions' := states + [t], actions + [a];
  }

  // So it happens: logout, logout again, quit while the second is carried out,
  // and the client is idle with the quit forgotten in the queue.
  lemma QuitLeftWaiting() returns (states: seq<State>, actions: seq<Action>, s: State)
    ensures Leads(states, actions, s)
    ensures !s.busy && s.tasks == [] && s.intent == Quit && !s.quit
  {
    states, actions, s := [FRESH], [], FRESH;
    states, actions, s := OneStepMore(states, actions, s, ClickLogout);
    assert s == FRESH.(busy := true, tasks := [Stopping([], LogoutOp)]);
    states, actions, s := OneStepMore(states, actions, s, ClickLogout);
    states, actions, s := OneStepMore(states, actions, s, ChainDone(0, false));
    assert s.busy && s.tasks == [Stopping([], QueuedLogout)];
    states, actions, s := OneStepMore(states, actions, s, ClickQuit);
    states, actions, s := OneStepMore(states, actions, s, ChainDone(0, false));
  }

  // A restart begun with such an intent in the queue.
  ghost predicate Doomed(s: State) {
    && s.intent.Ends() && |s.tasks| == 1 && s.tasks[0].Restart?
    && (s.tasks[0].pc.StopOld? || s.tasks[0].pc.AfterStop? || s.tasks[0].pc == Returned(None, Aborted))
  }

  lemma DoomedStep(s: State, a: Action)
    requires Tidy(s) && Doomed(s) && Enabled(s, a)
    ensures Next(s, a).next == s.next
    ensures Doomed(Next(s, a)) || Dispatched(Next(s, a))
  {
  }

  // It starts no engine, whatever else is clicked: the reconnect asked of an idle
  // client ends in the logout or quit that was left behind.
  lemma {:induction false} LeftIntentTakesOver(states: seq<State>, actions: seq<Action>, i: nat, j: nat)
    requires Run(states, actions) && i < j <= |actions|
    requires !states[i].busy && states[i].intent.Ends() && actions[i].ClickReconnect?
    ensures (Doomed(states[j]) && states[j].next == states[i].next) || exists k :: i < k <= j && Dispatched(states[k])
  {
    if i + 1 == j {
      DoomedFirst(states, actions, i);
    } else {
      LeftIntentTakesOver(states, actions, i, j - 1);
      if Doomed(states[j - 1]) {
        DoomedNext(states, actions, j - 1);
      }
    }
  }

  lemma DoomedFirst(states: seq<State>, actions: seq<Action>, i: nat)
    requires Run(states, actions) && i < |actions|
    requires !states[i].busy && states[i].intent.Ends() && actions[i].ClickReconnect?
    ensures Doomed(states[i + 1]) && states[i + 1].next == states[i].next
  {
    RunKeepsInvariant(states, actions, i);
    assert Enabled(states[i], actions[i]) && states[i + 1] == Next(states[i], actions[i]);
  }

  lemma DoomedNext(states: seq<State>, actions: seq<Action>, i: nat)
    requires Run(states, actions) && i < |actions| && Doomed(states[i])
    ensures states[i + 1].next == states[i].next && (Doomed(states[i + 1]) || Dispatched(states[i + 1]))
  {
    RunKeepsInvariant(states, actions, i);
    assert Enabled(states[i], actions[i]) && states[i + 1] == Next(states[i], actions[i]);
    DoomedStep(states[i], actions[i]);
  }

  // ----- a logout or quit in progress -----

  predicate IsIntentClick(a: Action) {
    a.ClickReconnect? || a.ClickLogout? || a.ClickQuit?
  }

  // The one task is a chain of stops with this continuation.
  predicate Carries(s: State, after: Then) {
    s.busy && |s.tasks| == 1 && s.tasks[0].Stopping? && s.tasks[0].after == after
  }

  // This step begins a quit, or a logout asked for by the user or after a failure.
  predicate Begins(s: State, a: Action, after: Then) {
    && !s.busy
    && match after
       case QuitOp => a.ClickQuit?
       case LogoutOp => a.ClickLogout? || (a.DataplaneFails? && s.eng == Some(a.e))
       case _ => false
  }

  function Continuation(intent: Intent, creds: Credentials): Then
    requires !intent.NoIntent?
  {
    match intent case Logout => QueuedLogout case Quit => QueuedQuit case Reconnect => QueuedReconnect(creds)
  }

  // The queued intent of s is carried out in t.
  predicate Replaced(s: State, t: State) {
    !s.intent.NoIntent? && Carries(t, Continuation(s.intent, s.creds))
  }

  lemma BeginCarries(s: State, a: Action, after: Then)
    requires Tidy(s) && Enabled(s, a) && Begins(s, a, after)
    ensures Carries(Next(s, a), after) && Next(s, a).intent == s.intent && Next(s, a).registered == s.registered
  {
  }

  lemma ClickWhileCarrying(s: State, a: Action, after: Then)
    requires Tidy(s) && Enabled(s, a) && Carries(s, after) && !a.ChainDone?
    ensures Carries(Next(s, a), after)
    ensures Next(s, a).intent.NoIntent? <==> s.intent.NoIntent? && !IsIntentClick(a)
    ensures Next(s, a).registered == s.registered + if IsIntentClick(a) then 1 else 0
  {
  }

  // Nobody asked for anything between steps i and j.
  predicate NoClick(actions: seq<Action>, i: nat, j: nat) {
    forall k :: i < k < j <= |actions| ==> !IsIntentClick(actions[k])
  }

  lemma FirstCarries(states: seq<State>, actions: seq<Action>, i: nat, after: Then)
    requires Run(states, actions) && i < |actions| && Begins(states[i], actions[i], after)
    ensures Carries(states[i + 1], after)
    ensures states[i + 1].intent == states[i].intent && states[i + 1].registered == states[i].registered
  {
    RunKeepsInvariant(states, actions, i);
    assert Enabled(states[i], actions[i]) && states[i + 1] == Next(states[i], actions[i]);
    BeginCarries(states[i], actions[i], after);
  }

  lemma NextCarries(states: seq<State>, actions: seq<Action>, j: nat, after: Then)
    requires Run(states, actions) && j < |actions| && Carries(states[j], after) && !actions[j].ChainDone?
    ensures Carries(states[j + 1], after)
    ensures states[j + 1].intent.NoIntent? <==> states[j].intent.NoIntent? && !IsIntentClick(actions[j])
    ensures states[j + 1].registered == states[j].registered + if IsIntentClick(actions[j]) then 1 else 0
  {
    RunKeepsInvariant(states, actions, j);
    assert Enabled(states[j], actions[j]) && states[j + 1] == Next(states[j], actions[j]);
    ClickWhileCarrying(states[j], actions[j], after);
  }

  lemma {:induction false} StillCarries(states: seq<State>, actions: seq<Action>, i: nat, j: nat, after: Then)
    requires Run(states, actions) && i < j <= |actions| && Begins(states[i], actions[i], after)
    requires forall k :: i < k < j ==> !actions[k].ChainDone?
    ensures Carries(states[j], after) && states[j].registered >= states[i].registered
    ensures states[j].intent.NoIntent? <==> states[i].intent.NoIntent? && NoClick(actions, i, j)
    ensures states[j].registered == states[i].registered <==> NoClick(actions, i, j)
  {
    if i + 1 == j {
      FirstCarries(states, actions, i, after);
    } else {
      StillCarries(states, actions, i, j - 1, after);
      NextCarries(states, actions, j - 1, after);
      assert NoClick(actions, i, j) <==> NoClick(actions, i, j - 1) && !IsIntentClick(actions[j - 1]);
    }
  }

  lemma OperationEnds(s: State, a: Action, after: Then)
    requires Tidy(s) && Enabled(s, a) && Carries(s, after) && a.ChainDone? && LooksAtQueue(after)
    ensures s.intent.NoIntent? ==> !Next(s, a).busy && Next(s, a).quit == after.QuitOp?
    ensures !s.intent.NoIntent? ==> Carries(Next(s, a), Continuation(s.intent, s.creds)) && !Next(s, a).quit
  {
    assert Without(s, a.i).tasks == [];
  }

  // In every run: a quit begun on the idle client at step i, whose chain reports
  // back at step j, ends in quitting if and only if nothing was queued when it was
  // clicked and nothing was clicked until then; what was queued last is carried
  // out instead.
  lemma QuitCompletesExactly(states: seq<State>, actions: seq<Action>, i: nat, j: nat)
    requires Run(states, actions) && i < j < |actions|
    requires Begins(states[i], actions[i], QuitOp) && actions[j].ChainDone?
    requires forall k :: i < k < j ==> !actions[k].ChainDone?
    ensures states[j + 1].quit <==> states[i].intent.NoIntent? && NoClick(actions, i, j)
    ensures states[j + 1].quit <==> states[i].intent.NoIntent? && states[j].registered == states[i].registered
    ensures states[j + 1].quit || Replaced(states[j], states[j + 1])
  {
    StillCarries(states, actions, i, j, QuitOp);
    RunKeepsInvariant(states, actions, j);
    assert Enabled(states[j], actions[j]);
    OperationEnds(states[j], actions[j], QuitOp);
  }

  // The same for a logout, which ends with the client idle.
  lemma LogoutCompletesExactly(states: seq<State>, actions: seq<Action>, i: nat, j: nat)
    requires Run(states, actions) && i < j < |actions|
    requires Begins(states[i], actions[i], LogoutOp) && actions[j].ChainDone?
    requires forall k :: i < k < j ==> !actions[k].ChainDone?
    ensures !states[j + 1].busy <==> states[i].intent.NoIntent? && NoClick(actions, i, j)
    ensures !states[j + 1].busy <==> states[i].intent.NoIntent? && states[j].registered == states[i].registered
    ensures !states[j + 1].busy || Replaced(states[j], states[j + 1])
  {
    StillCarries(states, actions, i, j, LogoutOp);
    RunKeepsInvariant(states, actions, j);
    assert Enabled(states[j], actions[j]);
    OperationEnds(states[j], actions[j], LogoutOp);
  }

  lemma {:induction false} KeepsCarrying(states: seq<State>, actions: seq<Action>, i: nat, j: nat, after: Then)
    requires Run(states, actions) && i <= j <= |actions| && Carries(states[i], after)
    requires forall k :: i <= k < j ==> !actions[k].ChainDone?
    ensures Carries(states[j], after)
  {
    if i < j {
      KeepsCarrying(states, actions, i, j - 1, after);
      NextCarries(states, actions, j - 1, after);
    }
  }

  // A logout or quit taken from the queue, by contrast, always completes.
  lemma QueuedCompletes(states: seq<State>, actions: seq<Action>, i: nat, j: nat, after: Then)
    requires Run(states, actions) && i <= j < |actions| && Carries(states[i], after)
    requires after.QueuedLogout? || after.QueuedQuit?
    requires actions[j].ChainDone? && forall k :: i <= k < j ==> !actions[k].ChainDone?
    ensures !states[j + 1].busy && (after.QueuedQuit? ==> states[j + 1].quit)
  {
    KeepsCarrying(states, actions, i, j, after);
    RunKeepsInvariant(states, actions, j);
    assert Enabled(states[j], actions[j]) && states[j + 1] == Next(states[j], actions[j]);
  }

  // Both halves of the condition are needed. A reconnect clicked during the quit
  // (or logout) is carried out in its place ...
  lemma OvertakenByClick(quits: bool, c: Credentials) returns (states: seq<State>, actions: seq<Action>, s: State)
    ensures Leads(states, actions, s) && actions != [] && actions[0] == if quits then ClickQuit else ClickLogout
    ensures s.busy && !s.quit && s.tasks == [Stopping([], QueuedReconnect(c))]
  {
    var op := if quits then QuitOp else LogoutOp;
    states, actions, s := [FRESH], [], FRESH;
    states, actions, s := OneStepMore(states, actions, s, if quits then ClickQuit else ClickLogout);
    assert s == FRESH.(busy := true, tasks := [Stopping([], op)]);
    states, actions, s := OneStepMore(states, actions, s, ClickReconnect(c));
    states, actions, s := OneStepMore(states, actions, s, ChainDone(0, false));
  }

  // ... and so is one left in the queue by an earlier operation: after a failed
  // login, quit (or logout) is the last thing clicked, and a new engine is mounted.
  lemma OvertakenByLeftover(quits: bool, c: Credentials)
      returns (states: seq<State>, actions: seq<Action>, s: State, n: nat)
    ensures Leads(states, actions, s)
    ensures n < |actions| && actions[n] == (if quits then ClickQuit else ClickLogout) && !states[n].busy
    ensures NoClick(actions, n, |actions|)
    ensures !s.busy && !s.quit && s.eng == Some(1)
  {
    var waiting, clicks, idle := ReconnectLeftWaiting(c);
    n := |clicks|;
    states, actions, s := OneStepMore(waiting, clicks, idle, if quits then ClickQuit else ClickLogout);
    assert s == idle.(busy := true, tasks := [Stopping([], if quits then QuitOp else LogoutOp)]);
    states, actions, s := OneStepMore(states, actions, s, ChainDone(0, false));
    assert s == idle.(busy := true, intent := NoIntent, creds := NO_CREDENTIALS,
                      tasks := [Stopping([], QueuedReconnect(c))]);
    states, actions, s := RestartMounts(states, actions, s, c);
  }

  // A login failed, and its engine is about to be stopped.
  lemma LoginHasFailed() returns (states: seq<State>, actions: seq<Action>, s: State)
    ensures Leads(states, actions, s)
    ensures s == FRESH.(busy := true, tasks := [Stopping([0], LoginFailed)], next := 1)
  {
    states, actions, s := [FRESH], [], FRESH;
    states, actions, s := OneStepMore(states, actions, s, ClickConnect(true));
    assert s == FRESH.(eng := Some(0), next := 1);
    states, actions, s := OneStepMore(states, actions, s, LoginFails(0));
  }

  lemma ReconnectLeftWaiting(c: Credentials) returns (states: seq<State>, actions: seq<Action>, s: State)
    ensures Leads(states, actions, s)
    ensures s == FRESH.(opGen := 1, intent := Reconnect, creds := c, registered := 1, next := 1, stops := [0])
  {
    states, actions, s := LoginHasFailed();
    var queued := s.(opGen := 1, intent := Reconnect, creds := c, registered := 1);
    states, actions, s := OneStepMore(states, actions, s, ClickReconnect(c));
    assert s == queued;
    states, actions, s := OneStepMore(states, actions, s, StopReturns(0));
    StopsFirst(queued);
    states, actions, s := OneStepMore(states, actions, s, ChainDone(0, false));
  }

  lemma StopsFirst(s: State)
    requires s.tasks == [Stopping([0], LoginFailed)] && s.stops == [] && !s.quit
    ensures Next(s, StopReturns(0)) == s.(tasks := [Stopping([], LoginFailed)], stops := [0])
  {
    assert [0][1..] == [];
  }

  // Undisturbed, a queued reconnect ends with a new engine mounted.
  lemma RestartMounts(before: seq<State>, clicks: seq<Action>, s: State, c: Credentials)
      returns (states: seq<State>, actions: seq<Action>, t: State)
    requires Leads(before, clicks, s) && s.busy && s.eng == None && !s.quit && s.intent.NoIntent?
    requires s.tasks == [Stopping([], QueuedReconnect(c))]
    ensures Leads(states, actions, t) && clicks <= actions && before <= states
    ensures forall k :: |clicks| <= k < |actions| ==> !IsIntentClick(actions[k])
    ensures !t.busy && !t.quit && t.eng == Some(s.next)
  {
    states, actions, t := RestartReachesDns(before, clicks, s, c);
    var r := t.tasks[0];
    AskAdvances(t, r);
    states, actions, t := OneStepMore(states, actions, t, AskAbort(0));
    AskAdvances(t, r.(pc := BeforeStart));
    states, actions, t := OneStepMore(states, actions, t, AskAbort(0));
    StartAdvances(t, r.(pc := Starting));
    states, actions, t := OneStepMore(states, actions, t, StartReturns(0, true));
    FinishMounts(t, r.(pc := Returned(Some(s.next), NoError)));
    states, actions, t := OneStepMore(states, actions, t, Finished(0));
  }

  // The steps of a restart that nothing disturbs.
  lemma AskAdvances(s: State, r: Task)
    requires s.tasks == [r] && r.Restart? && r.gen == s.opGen && s.intent.NoIntent? && Enabled(s, AskAbort(0))
    ensures Next(s, AskAbort(0)) == s.(tasks := [r.(pc := AfterAsking(r.pc, false))])
  {
  }

  lemma StartAdvances(s: State, r: Task)
    requires s.tasks == [r] && r.Restart? && r.pc.Starting? && !s.quit
    ensures (Next(s, StartReturns(0, true))
             == s.(tasks := [r.(pc := Returned(Some(s.next), NoError))], next := s.next + 1))
  {
  }

  lemma FinishMounts(s: State, r: Task)
    requires s.tasks == [r] && r.Restart? && r.pc.Returned? && r.pc.err.NoError?
    requires r.gen == s.opGen && s.intent.NoIntent? && !s.quit
    ensures var t := Next(s, Finished(0)); !t.busy && !t.quit && t.eng == r.pc.eng
  {
  }

  lemma RestartReachesDns(before: seq<State>, clicks: seq<Action>, s: State, c: Credentials)
      returns (states: seq<State>, actions: seq<Action>, t: State)
    requires Leads(before, clicks, s) && s.busy && s.eng == None && !s.quit && s.intent.NoIntent?
    requires s.tasks == [Stopping([], QueuedReconnect(c))]
    ensures Leads(states, actions, t) && clicks <= actions && before <= states
    ensures forall k :: |clicks| <= k < |actions| ==> !IsIntentClick(actions[k])
    ensures t == s.(tasks := [Restart(None, c, s.opGen, s.registered, AfterDns)])
  {
    var r := Restart(None, c, s.opGen, s.registered, StopOld);
    RestartBegins(s, c);
    states, actions, t := OneStepMore(before, clicks, s, ChainDone(0, false));
    NothingToStop(t, r);
    states, actions, t := OneStepMore(states, actions, t, OldStopped(0));
    AskAdvances(t, r.(pc := AfterStop));
    states, actions, t := OneStepMore(states, actions, t, AskAbort(0));
    DnsAdvances(t, r.(pc := SettleDns));
    states, actions, t := OneStepMore(states, actions, t, DnsSettled(0));
  }

  lemma RestartBegins(s: State, c: Credentials)
    requires s.tasks == [Stopping([], QueuedReconnect(c))] && !s.quit
    ensures Next(s, ChainDone(0, false)) == s.(tasks := [Restart(None, c, s.opGen, s.registered, StopOld)])
  {
    assert Without(s, 0).tasks == [];
  }

  lemma NothingToStop(s: State, r: Task)
    requires s.tasks == [r] && r.Restart? && r.pc.StopOld? && r.prior.None? && !s.quit
    ensures Next(s, OldStopped(0)) == s.(tasks := [r.(pc := AfterStop)])
  {
    assert s.stops + [] == s.stops;
  }

  lemma DnsAdvances(s: State, r: Task)
    requires s.tasks == [r] && r.Restart? && r.pc.SettleDns? && !s.quit
    ensures Next(s, DnsSettled(0)) == s.(tasks := [r.(pc := AfterDns)])
  {
  }
}
