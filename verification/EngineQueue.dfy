// The desktop client's engine operations. Stop and HardRestart run in the
// background while the window stays live, so a click during one is queued as an
// intent and picked up when the operation reports back to the UI thread.
module EngineQueue {
  import opened Wrappers

  type Engine = nat      // engines are numbered in the order they are started

  const GENERATIONS: int := 0x1_0000_0000_0000_0000   // opGen is a uint64

  datatype Credentials = Credentials(user: string, password: string)

  const NO_CREDENTIALS := Credentials("", "")

  datatype Intent = NoIntent | Logout | Quit | Reconnect {
    predicate Ends() {
      Logout? || Quit?
    }
  }

  datatype Error = NoError | Aborted | StartFailed

  // Where HardRestart stands, in its own goroutine.
  datatype RestartPc =
    | StopOld
    | AfterStop | SettleDns | AfterDns | BeforeStart   // abort is asked at all but SettleDns
    | Starting
    | Returned(eng: Option<Engine>, err: Error)

  // What follows a chain of stops, on the UI thread.
  datatype Then = LogoutOp | QuitOp | QueuedLogout | QueuedQuit | QueuedReconnect(creds: Credentials)
                | OrphanGone | LoginCleared | LoginFailed | Nothing

  datatype Task =
    | Restart(prior: Option<Engine>, creds: Credentials, gen: int, begun: nat, pc: RestartPc)
    | Stopping(todo: seq<Engine>, after: Then)

  datatype State = State(
    busy: bool, opGen: int, intent: Intent, creds: Credentials, eng: Option<Engine>,
    registered: nat,        // intents accepted so far
    tasks: seq<Task>,       // background work, with the callback it will post
    next: Engine,
    stops: seq<Engine>,     // engines whose Stop was called, in order
    quit: bool)

  const FRESH := State(false, 0, NoIntent, NO_CREDENTIALS, None, 0, [], 0, [], false)

  datatype Finish = Superseded | GaveUp | CouldNotStart | Mount

  // ----- the queue's rules -----

  predicate Accepts(s: State, intent: Intent) {
    !intent.NoIntent? && s.busy
  }

  function Register(s: State, intent: Intent, creds: Credentials): State {
    if !Accepts(s, intent) then s
    else if s.intent.Ends() && intent.Reconnect? then s.(registered := s.registered + 1)
    else s.(opGen := (s.opGen + 1) % GENERATIONS,
            creds := if intent.Reconnect? then creds else NO_CREDENTIALS,
            intent := intent,
            registered := s.registered + 1)
  }

  function Taken(s: State): State {
    s.(intent := NoIntent, creds := NO_CREDENTIALS)
  }

  predicate ShouldAbort(s: State, gen: int) {
    s.opGen != gen || s.intent.Ends()
  }

  function Decide(genCurrent: bool, err: Error): Finish {
    if !genCurrent then Superseded
    else if err.Aborted? then GaveUp
    else if err.StartFailed? then CouldNotStart
    else Mount
  }

  // ----- the operations -----

  function Spawn(s: State, t: Task): State {
    s.(tasks := s.tasks + [t])
  }

  function Present(e: Option<Engine>): seq<Engine> {
    if e.Some? then [e.value] else []
  }

  function StopAll(s: State, chain: seq<Engine>, after: Then): State {
    Spawn(s, Stopping(chain, after))
  }

  function BeginRestart(s: State, prior: Option<Engine>, creds: Credentials): State {
    Spawn(s, Restart(prior, creds, s.opGen, s.registered, StopOld))
  }

  function Dispatch(s: State, intent: Intent, creds: Credentials, orphan: Option<Engine>): State {
    match intent
    case Logout => StopAll(s.(eng := None), Present(s.eng) + Present(orphan), QueuedLogout)
    case Quit => StopAll(s.(eng := None), Present(s.eng) + Present(orphan), QueuedQuit)
    case Reconnect => StopAll(s.(eng := None), Present(s.eng) + Present(orphan), QueuedReconnect(creds))
    case NoIntent => if orphan.Some? then StopAll(s, Present(orphan), OrphanGone) else s.(busy := false)
  }

  function FinishWithOrphan(s: State, orphan: Option<Engine>): State {
    if !s.intent.NoIntent? then Dispatch(Taken(s), s.intent, s.creds, orphan)
    else if orphan.Some? then StopAll(Taken(s), Present(orphan), OrphanGone)
    else Taken(s).(busy := false)
  }

  function FinishRestart(s: State, eng: Option<Engine>, err: Error, gen: int): State {
    match Decide(s.opGen == gen, err)
    case Superseded => FinishWithOrphan(s, eng)
    case GaveUp => FinishWithOrphan(s, None)
    case CouldNotStart => FinishWithOrphan(s, eng)
    case Mount =>
      if !s.intent.NoIntent? then Dispatch(Taken(s), s.intent, s.creds, eng)
      else Taken(s).(eng := eng, busy := false)
  }

  // Begin an operation that first stops the mounted engine.
  function StopMounted(s: State, after: Then): State {
    StopAll(s.(busy := true, eng := None), Present(s.eng), after)
  }

  function LogoutClicked(s: State): State {
    if s.busy then Register(s, Logout, NO_CREDENTIALS) else StopMounted(s, LogoutOp)
  }

  // prepared: PrepareEngine gave an engine.
  function Connect(s: State, prepared: bool): State {
    if s.eng.Some? then (if s.busy then s else StopMounted(s, LoginCleared))
    else if prepared then s.(eng := Some(s.next), next := s.next + 1)
    else s
  }

  function LoginFailure(s: State, e: Engine): State {
    if s.eng != Some(e) then s
    else if s.busy then StopAll(Register(s.(eng := None), Logout, NO_CREDENTIALS), [e], Nothing)
    else StopAll(s.(eng := None, busy := true), [e], LoginFailed)
  }

  function Followed(s: State, after: Then, prepared: bool): State {
    match after
    case LogoutOp =>
      if s.intent.NoIntent? then Taken(s).(busy := false)
      else Dispatch(Taken(s), s.intent, s.creds, None)
    case QuitOp =>
      if s.intent.NoIntent? then Taken(s).(busy := false, quit := true)
      else Dispatch(Taken(s), s.intent, s.creds, None)
    case QueuedLogout => s.(busy := false)
    case QueuedQuit => s.(busy := false, quit := true)
    case QueuedReconnect(creds) => BeginRestart(s, None, creds)
    case OrphanGone => s.(busy := false)
    case LoginCleared => Connect(s.(busy := false), prepared)
    case LoginFailed => s.(busy := false)
    case Nothing => s
  }

  // ----- steps -----

  datatype Action =
    | ClickReconnect(creds: Credentials) | ClickLogout | ClickQuit | ClickConnect(prepared: bool)
    | LoginFails(e: Engine)               // the first authentication of e failed
    | DataplaneFails(e: Engine)
    | OldStopped(i: nat) | AskAbort(i: nat) | DnsSettled(i: nat) | StartReturns(i: nat, ok: bool)
    | Finished(i: nat)                    // HardRestart's callback
    | StopReturns(i: nat) | ChainDone(i: nat, prepared: bool)

  predicate IsRestart(s: State, i: nat) {
    i < |s.tasks| && s.tasks[i].Restart?
  }

  predicate IsStopping(s: State, i: nat) {
    i < |s.tasks| && s.tasks[i].Stopping?
  }

  // The Connect button is grey while an operation runs.
  predicate Enabled(s: State, a: Action) {
    !s.quit &&
    match a
    case ClickReconnect(_) => true
    case ClickLogout => true
    case ClickQuit => true
    case ClickConnect(_) => !s.busy
    case LoginFails(_) => true
    case DataplaneFails(_) => true
    case OldStopped(i) => IsRestart(s, i) && s.tasks[i].pc.StopOld?
    case AskAbort(i) =>
      IsRestart(s, i) && (s.tasks[i].pc.AfterStop? || s.tasks[i].pc.AfterDns? || s.tasks[i].pc.BeforeStart?)
    case DnsSettled(i) => IsRestart(s, i) && s.tasks[i].pc.SettleDns?
    case StartReturns(i, _) => IsRestart(s, i) && s.tasks[i].pc.Starting?
    case Finished(i) => IsRestart(s, i) && s.tasks[i].pc.Returned?
    case StopReturns(i) => IsStopping(s, i) && s.tasks[i].todo != []
    case ChainDone(i, _) => IsStopping(s, i) && s.tasks[i].todo == []
  }

  function Advance(s: State, i: nat, pc: RestartPc): State
    requires IsRestart(s, i)
  {
    s.(tasks := s.tasks[i := s.tasks[i].(pc := pc)])
  }

  function Without(s: State, i: nat): State
    requires i < |s.tasks|
  {
    s.(tasks := s.tasks[..i] + s.tasks[i + 1..])
  }

  function AfterAsking(pc: RestartPc, abort: bool): RestartPc
    requires pc.AfterStop? || pc.AfterDns? || pc.BeforeStart?
  {
    if abort then Returned(None, Aborted)
    else match pc case AfterStop => SettleDns case AfterDns => BeforeStart case BeforeStart => Starting
  }

  function Next(s: State, a: Action): State
    requires Enabled(s, a)
  {
    match a
    case ClickReconnect(creds) =>
      if s.busy then Register(s, Reconnect, creds)
      else BeginRestart(s.(busy := true, eng := None), s.eng, creds)
    case ClickLogout => LogoutClicked(s)
    case ClickQuit => if s.busy then Register(s, Quit, NO_CREDENTIALS) else StopMounted(s, QuitOp)
    case ClickConnect(prepared) => Connect(s, prepared)
    case LoginFails(e) => LoginFailure(s, e)
    case DataplaneFails(e) => if s.eng == Some(e) then LogoutClicked(s) else s
    case OldStopped(i) => Advance(s, i, AfterStop).(stops := s.stops + Present(s.tasks[i].prior))
    case AskAbort(i) => Advance(s, i, AfterAsking(s.tasks[i].pc, ShouldAbort(s, s.tasks[i].gen)))
    case DnsSettled(i) => Advance(s, i, AfterDns)
    case StartReturns(i, ok) =>
      Advance(s, i, Returned(Some(s.next), if ok then NoError else StartFailed)).(next := s.next + 1)
    case Finished(i) => FinishRestart(Without(s, i), s.tasks[i].pc.eng, s.tasks[i].pc.err, s.tasks[i].gen)
    case StopReturns(i) =>
      s.(tasks := s.tasks[i := Stopping(s.tasks[i].todo[1..], s.tasks[i].after)],
          stops := s.stops + [s.tasks[i].todo[0]])
    case ChainDone(i, prepared) => Followed(Without(s, i), s.tasks[i].after, prepared)
  }

  // ----- the application object -----

  // The engines there are among engs, in order.
  function AllPresent(engs: seq<Option<Engine>>): (r: seq<Engine>)
    ensures |engs| == 1 ==> r == Present(engs[0])
    ensures |engs| == 2 ==> r == Present(engs[0]) + Present(engs[1])
  {
    if engs == [] then [] else AllPresent(engs[..|engs| - 1]) + Present(engs[|engs| - 1])
  }

  class UiApp {
    var busy: bool
    var opGen: int
    var intent: Intent
    var creds: Credentials
    var eng: Option<Engine>
    var registered: nat
    var tasks: seq<Task>
    var next: Engine
    var stops: seq<Engine>
    var quit: bool

    ghost function View(): State
      reads this
    {
      State(busy, opGen, intent, creds, eng, registered, tasks, next, stops, quit)
    }

    constructor ()
      ensures View() == FRESH
    {
      busy, opGen, intent, creds, eng := false, 0, NoIntent, NO_CREDENTIALS, None;
      registered, tasks, next, stops, quit := 0, [], 0, [], false;
    }

    method SetPending(intent: Intent, creds: Credentials) returns (accepted: bool)
      modifies this`opGen, this`intent, this`creds, this`registered
      ensures View() == Register(old(View()), intent, creds) && accepted == Accepts(old(View()), intent)
      ensures accepted <==> busy && !intent.NoIntent?
      ensures registered == if accepted then old(registered) + 1 else old(registered)
      ensures (this.intent, this.creds, opGen)
           == if accepted && !(intent.Reconnect? && (old(this.intent).Logout? || old(this.intent).Quit?))
              then (intent, if intent.Reconnect? then creds else Credentials("", ""),
                    (old(opGen) + 1) % 0x1_0000_0000_0000_0000)
              else (old(this.intent), old(this.creds), old(opGen))
    {
      if intent.NoIntent? || !busy {
        return false;
      }
      registered := registered + 1;
      if this.intent.Quit? || this.intent.Logout? {
        if intent.Reconnect? {
          return true;
        }
      }
      opGen := (opGen + 1) % GENERATIONS;
      this.creds := if intent.Reconnect? then creds else NO_CREDENTIALS;
      this.intent := intent;
      return true;
    }

    method TakePending() returns (it: Intent, c: Credentials)
      modifies this`intent, this`creds
      ensures View() == Taken(old(View())) && it == old(intent) && c == old(creds)
    {
      it, c := intent, creds;
      intent, creds := NoIntent, NO_CREDENTIALS;
    }

    method BeginEngineOp() returns (begun: bool)
      modifies this`busy
      ensures busy && begun == !old(busy)
    {
      begun := !busy;
      busy := true;
    }

    method EndEngineOp()
      modifies this`busy
      ensures !busy
    {
      busy := false;
    }

    method TakeEngine() returns (e: Option<Engine>)
      modifies this`eng
      ensures eng == None && e == old(eng)
    {
      e := eng;
      eng := None;
    }

    method ClearEngineIf(e: Engine)
      modifies this`eng
      ensures eng == if old(eng) == Some(e) then None else old(eng)
    {
      if eng == Some(e) {
        eng := None;
      }
    }

    method StopEnginesSerial(engs: seq<Option<Engine>>, after: Then)
      modifies this`tasks
      ensures tasks == old(tasks) + [Stopping(AllPresent(engs), after)]
    {
      var chain := [];
      for k := 0 to |engs|
        invariant chain == AllPresent(engs[..k])
      {
        assert engs[..k + 1][..k] == engs[..k];
        chain := chain + Present(engs[k]);
      }
      assert engs[..|engs|] == engs;
      tasks := tasks + [Stopping(chain, after)];
    }

    method ReconnectAfterStop(prior: Option<Engine>, creds: Credentials)
      modifies this`tasks
      ensures View() == BeginRestart(old(View()), prior, creds)
    {
      tasks := tasks + [Restart(prior, creds, opGen, registered, StopOld)];
    }

    method DispatchPending(it: Intent, creds: Credentials, orphan: Option<Engine>)
      modifies this`tasks, this`eng, this`busy
      ensures View() == Dispatch(old(View()), it, creds, orphan)
    {
      if it.NoIntent? {
        if orphan.Some? {
          StopEnginesSerial([orphan], OrphanGone);
        } else {
          EndEngineOp();
        }
        return;
      }
      var mounted := TakeEngine();
      var after := match it
        case Logout => QueuedLogout
        case Quit => QueuedQuit
        case _ => QueuedReconnect(creds);
      StopEnginesSerial([mounted, orphan], after);
    }

    method FinishHardRestartWithOrphan(orphan: Option<Engine>)
      modifies this
      ensures View() == FinishWithOrphan(old(View()), orphan)
    {
      var it, c := TakePending();
      if !it.NoIntent? {
        DispatchPending(it, c, orphan);
        return;
      }
      if orphan.Some? {
        StopEnginesSerial([orphan], OrphanGone);
        return;
      }
      EndEngineOp();
    }

    method FinishHardRestart(eng: Option<Engine>, err: Error, gen: int)
      modifies this
      ensures View() == FinishRestart(old(View()), eng, err, gen)
    {
      match Decide(opGen == gen, err) {
        case Superseded => FinishHardRestartWithOrphan(eng);
        case GaveUp => FinishHardRestartWithOrphan(None);
        case CouldNotStart => FinishHardRestartWithOrphan(eng);
        case Mount =>
          var it, c := TakePending();
          if !it.NoIntent? {
            DispatchPending(it, c, eng);
            return;
          }
          this.eng := eng;
          EndEngineOp();
      }
    }

    method ApplyPending() returns (took: bool)
      modifies this
      ensures took == !old(intent).NoIntent?
      ensures View() == if took then Dispatch(Taken(old(View())), old(intent), old(creds), None) else Taken(old(View()))
    {
      var it, c := TakePending();
      took := !it.NoIntent?;
      if took {
        DispatchPending(it, c, None);
      }
    }

    method ReconnectVPN(creds: Credentials)
      requires Enabled(View(), ClickReconnect(creds))
      modifies this
      ensures View() == Next(old(View()), ClickReconnect(creds))
      ensures !old(busy) ==>
        && busy && eng.None?
        && tasks == old(tasks) + [Restart(old(eng), creds, old(opGen), old(registered), StopOld)]
      ensures old(busy) ==> tasks == old(tasks) && eng == old(eng) && registered == old(registered) + 1
    {
      var begun := BeginEngineOp();
      if !begun {
        var _ := SetPending(Reconnect, creds);
        return;
      }
      var prior := TakeEngine();
      ReconnectAfterStop(prior, creds);
    }

    method DoLogout()
      modifies this
      ensures View() == LogoutClicked(old(View()))
      ensures !old(busy) ==>
        && busy && eng.None? && intent == old(intent)
        && tasks == old(tasks) + [Stopping(if old(eng).Some? then [old(eng).value] else [], LogoutOp)]
      ensures old(busy) ==> tasks == old(tasks) && eng == old(eng) && intent == Logout
    {
      var begun := BeginEngineOp();
      if !begun {
        var _ := SetPending(Logout, NO_CREDENTIALS);
        return;
      }
      var e := TakeEngine();
      StopEnginesSerial([e], LogoutOp);
    }

    method QuitApp()
      requires Enabled(View(), ClickQuit)
      modifies this
      ensures View() == Next(old(View()), ClickQuit)
      ensures !old(busy) ==>
        && busy && eng.None? && intent == old(intent)
        && tasks == old(tasks) + [Stopping(if old(eng).Some? then [old(eng).value] else [], QuitOp)]
      ensures old(busy) ==> tasks == old(tasks) && eng == old(eng) && intent == Quit
    {
      var begun := BeginEngineOp();
      if !begun {
        var _ := SetPending(Quit, NO_CREDENTIALS);
        return;
      }
      var e := TakeEngine();
      StopEnginesSerial([e], QuitOp);
    }

    method TryConnect(prepared: bool)
      modifies this
      ensures View() == Connect(old(View()), prepared)
      ensures old(eng).None? ==>
        && busy == old(busy) && tasks == old(tasks)
        && eng == (if prepared then Some(old(next)) else None)
      ensures old(eng).Some? && old(busy) ==> View() == old(View())
      ensures old(eng).Some? && !old(busy) ==>
        && busy && eng.None?
        && tasks == old(tasks) + [Stopping([old(eng).value], LoginCleared)]
    {
      if eng.Some? {
        var begun := BeginEngineOp();
        if !begun {
          return;
        }
        var e := TakeEngine();
        StopEnginesSerial([e], LoginCleared);
        return;
      }
      if !prepared {
        return;
      }
      eng, next := Some(next), next + 1;
    }

    method FinishLoginFailure(e: Engine)
      modifies this
      ensures View() == LoginFailure(old(View()), e)
      ensures old(eng) != Some(e) ==> View() == old(View())
      ensures old(eng) == Some(e) ==>
        && busy && eng.None?
        && tasks == old(tasks) + [Stopping([e], if old(busy) then Nothing else LoginFailed)]
        && intent == (if old(busy) then Logout else old(intent))
    {
      if eng != Some(e) {
        return;
      }
      ClearEngineIf(e);
      var begun := BeginEngineOp();
      if !begun {
        var _ := SetPending(Logout, NO_CREDENTIALS);
        StopEnginesSerial([Some(e)], Nothing);
        return;
      }
      StopEnginesSerial([Some(e)], LoginFailed);
    }

    // A HardRestart asks whether to go on.
    method Ask(i: nat)
      requires Enabled(View(), AskAbort(i))
      modifies this`tasks
      ensures View() == Next(old(View()), AskAbort(i))
      ensures tasks[i].pc == Returned(None, Aborted)
         <==> opGen != old(tasks[i].gen) || intent == Logout || intent == Quit
      ensures tasks[i].pc != Returned(None, Aborted) ==>
        tasks[i].pc == if old(tasks[i].pc).AfterStop? then SettleDns
                       else if old(tasks[i].pc).AfterDns? then BeforeStart
                       else Starting
    {
      var t := tasks[i];
      var abort := opGen != t.gen || intent.Logout? || intent.Quit?;
      tasks := tasks[i := t.(pc := AfterAsking(t.pc, abort))];
    }

    method StopPrior(i: nat)
      requires Enabled(View(), OldStopped(i))
      modifies this`tasks, this`stops
      ensures View() == Next(old(View()), OldStopped(i))
    {
      if tasks[i].prior.Some? {
        stops := stops + [tasks[i].prior.value];
      }
      tasks := tasks[i := tasks[i].(pc := AfterStop)];
    }

    // A failed Start still hands its engine back.
    method StartEngine(i: nat, ok: bool)
      requires Enabled(View(), StartReturns(i, ok))
      modifies this`tasks, this`next
      ensures View() == Next(old(View()), StartReturns(i, ok))
    {
      var e := next;
      next := next + 1;
      tasks := tasks[i := tasks[i].(pc := Returned(Some(e), if ok then NoError else StartFailed))];
    }

    method StopNext(i: nat)
      requires Enabled(View(), StopReturns(i))
      modifies this`tasks, this`stops
      ensures View() == Next(old(View()), StopReturns(i))
    {
      var chain := tasks[i].todo;
      stops := stops + [chain[0]];
      tasks := tasks[i := Stopping(chain[1..], tasks[i].after)];
    }

    // The callback a finished task posts to the UI thread.
    method Callback(i: nat, prepared: bool)
      requires Enabled(View(), if IsRestart(View(), i) then Finished(i) else ChainDone(i, prepared))
      modifies this
      ensures View() == Next(old(View()), if IsRestart(old(View()), i) then Finished(i) else ChainDone(i, prepared))
    {
      var t := tasks[i];
      tasks := tasks[..i] + tasks[i + 1..];
      if t.Restart? {
        FinishHardRestart(t.pc.eng, t.pc.err, t.gen);
        return;
      }
      AfterChain(t.after, prepared);
    }

    method AfterChain(after: Then, prepared: bool)
      modifies this
      ensures View() == Followed(old(View()), after, prepared)
    {
      match after {
        case LogoutOp =>
          var took := ApplyPending();
          if !took {
            EndEngineOp();
          }
        case QuitOp =>
          var took := ApplyPending();
          if !took {
            EndEngineOp();
            quit := true;
          }
        case QueuedLogout => EndEngineOp();
        case QueuedQuit =>
          EndEngineOp();
          quit := true;
        case QueuedReconnect(c) => ReconnectAfterStop(None, c);
        case OrphanGone => EndEngineOp();
        case LoginCleared =>
          EndEngineOp();
          TryConnect(prepared);
        case LoginFailed => EndEngineOp();
        case Nothing =>
      }
    }
  }
}
