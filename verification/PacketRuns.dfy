// The packets of those runs: whose session they belong to, what they may find
// gone, and where they can end.
module PacketRuns {
  import Addresses
  import Bytes
  import opened PacketPolicy
  import opened SessionRuns
  import opened SessionState
  import opened Wrappers

  function Now(w: World): Seen {
    Seen(w.s, w.allowAll)
  }

  // ----- what a step does to the goroutines -----

  predicate SameOut(w: World, v: World) {
    v.sent == w.sent && v.tun == w.tun
  }

  // Steps as seen from the goroutines alone: which one moves and where to, and
  // what leaves.
  ghost predicate Move(w: World, a: Action, v: World) {
    match a
    case Lookup(t, u, conn, data) =>
      t !in w.threads && SameOut(w, v) && (v.threads == w.threads || TakesFrame(w, t, u, conn, data, v))
    case Decrypt(t) =>
      t in w.threads && w.threads[t].Found? && SameOut(w, v) && Opens(w, t, w.threads[t], v)
    case Recheck(t) =>
      && t in w.threads && w.threads[t].Decrypted? && SameOut(w, v)
      && var th := w.threads[t];
         v.threads == if Online(w.s, th.sid) && w.s.accounts[th.sid].conn == th.conn
                      then w.threads[t := Judging(th.sid, th.conn, th.plain, [])] else w.threads - {t}
    case Ask(t) =>
      && t in w.threads && w.threads[t].Judging? && SameOut(w, v)
      && v.threads == w.threads[t := w.threads[t].(seen := w.threads[t].seen + [Now(w)])]
    case Deliver(t) =>
      t in w.threads && Judged(w.threads[t]) && PassesOn(w, t, w.threads[t], VerdictOf(w.threads[t]), v)
    case Pick(t, sid, plain) =>
      && t !in w.threads && SameOut(w, v)
      && (v.threads == w.threads || (HasCipher(w.s, sid) && v.threads == w.threads[t := Picked(sid, plain, FromTUN)]))
    case Check(t) =>
      && t in w.threads && w.threads[t].Picked? && SameOut(w, v)
      && var th := w.threads[t];
         v.threads == if Online(w.s, th.sid) then w.threads[t := Checked(th.sid, th.plain, th.origin)]
             else w.threads - {t}
    case Transmit(t) =>
      && t in w.threads && w.threads[t].Checked? && v.threads == w.threads - {t} && v.tun == w.tun
      && var th := w.threads[t];
         (v.sent == w.sent || v.sent == w.sent + [SessionRuns.Sent(th.sid, th.plain, th.origin)])
    case _ => v.threads == w.threads && SameOut(w, v)
  }

  ghost predicate TakesFrame(w: World, t: nat, u: User, conn: Conn, data: seq<Bytes.Byte>, v: World) {
    && Registered(w.s, u) && Current(w.s, u).conn == conn && HasCipher(w.s, w.s.sessions[u])
    && v.threads == w.threads[t := Found(w.s.sessions[u], conn, data)]
  }

  ghost predicate Opens(w: World, t: nat, th: Thread, v: World)
    requires th.Found?
  {
    v.threads == w.threads - {t} || exists plain :: v.threads == w.threads[t := Decrypted(th.sid, th.conn, plain)]
  }

  ghost predicate PassesOn(w: World, t: nat, th: Thread, verdict: Verdict, v: World)
    requires th.Judging?
  {
    v.sent == w.sent &&
    match verdict
    case ToTUN => v.threads == w.threads - {t} && v.tun == w.tun + [Written(th.sid, th.plain)]
    case ToPeer(peer) =>
      && v.tun == w.tun
      && (v.threads == w.threads - {t}
          || (HasCipher(w.s, peer) && v.threads == w.threads[t := Picked(peer, th.plain, FromPeer(th.sid))]))
    case _ => v.threads == w.threads - {t} && v.tun == w.tun
  }

  lemma StepMoves(w: World, a: Action, v: World)
    requires Step(w, a, v)
    ensures Move(w, a, v)
  {
    if a.Decrypt? {
      DecryptMoves(w, a.t, w.threads[a.t], v);
    } else if ChangesTables(a) {
      TableMoves(w, a, v);
    }
  }

  lemma TableMoves(w: World, a: Action, v: World)
    requires Step(w, a, v) && ChangesTables(a)
    ensures v.threads == w.threads && SameOut(w, v)
  {
  }

  lemma DecryptMoves(w: World, t: nat, th: Thread, v: World)
    requires th.Found? && DecryptStep(w, t, th, v)
    ensures Opens(w, t, th, v) && SameOut(w, v)
  {
  }

  // ----- frames and packets of a replaced session -----

  // A frame whose session was replaced before the second check is dropped at
  // that check, and a packet picked for it before the identity check is not
  // sent, however long ago the goroutine found the session.
  lemma StaleIsDropped(worlds: seq<World>, actions: seq<Action>, i: nat, j: nat, t: nat)
    requires Run(worlds, actions) && i <= j < |actions|
    requires actions[j] == Recheck(t) || actions[j] == Check(t)
    requires t in worlds[j].threads
    requires worlds[j].threads[t].sid in worlds[i].s.accounts && !Online(worlds[i].s, worlds[j].threads[t].sid)
    ensures worlds[j + 1] == worlds[j].(threads := worlds[j].threads - {t})
  {
    OfflineForever(worlds, actions, i, j, worlds[j].threads[t].sid);
    assert Step(worlds[j], actions[j], worlds[j + 1]);
  }

  // Step k let goroutine t go on to judge: its session was the current one, on
  // the connection the frame came from. Until n it has done nothing but judge.
  ghost predicate ClearedAt(worlds: seq<World>, actions: seq<Action>, k: int, n: nat, t: nat, th: Thread) {
    && 0 <= k < n < |worlds| && n <= |actions| && th.Judging?
    && actions[k] == Recheck(t) && Online(worlds[k].s, th.sid) && worlds[k].s.accounts[th.sid].conn == th.conn
    && forall m :: k < m <= n ==> SameFrame(worlds[m], t, th)
  }

  predicate SameFrame(w: World, t: nat, th: Thread)
    requires th.Judging?
  {
    t in w.threads && w.threads[t].Judging?
    && w.threads[t].sid == th.sid && w.threads[t].conn == th.conn && w.threads[t].plain == th.plain
  }

  lemma JudgingFrom(w: World, a: Action, v: World, t: nat)
    requires Move(w, a, v) && t in v.threads && v.threads[t].Judging?
    ensures (SameFrame(w, t, v.threads[t])
             || (a == Recheck(t) && Online(w.s, v.threads[t].sid)
                 && w.s.accounts[v.threads[t].sid].conn == v.threads[t].conn))
  {
  }

  lemma {:induction false} JudgingWasCleared(worlds: seq<World>, actions: seq<Action>, n: nat, t: nat)
    requires Run(worlds, actions) && n <= |actions|
    requires t in worlds[n].threads && worlds[n].threads[t].Judging?
    ensures exists k :: ClearedAt(worlds, actions, k, n, t, worlds[n].threads[t])
  {
    var th := worlds[n].threads[t];
    assert n > 0;
    StepMoves(worlds[n - 1], actions[n - 1], worlds[n]);
    JudgingFrom(worlds[n - 1], actions[n - 1], worlds[n], t);
    if SameFrame(worlds[n - 1], t, th) {
      JudgingWasCleared(worlds, actions, n - 1, t);
      var k :| ClearedAt(worlds, actions, k, n - 1, t, worlds[n - 1].threads[t]);
      assert ClearedAt(worlds, actions, k, n, t, th);
    } else {
      assert ClearedAt(worlds, actions, n - 1, n, t, th);
    }
  }

  // Every packet passed on was checked again at a step where its session was
  // online on the frame's connection; so no takeover came before that step.
  lemma DeliveredWasRechecked(worlds: seq<World>, actions: seq<Action>, j: nat, t: nat)
    requires Run(worlds, actions) && j < |actions| && actions[j] == Deliver(t)
    ensures t in worlds[j].threads && worlds[j].threads[t].Judging?
    ensures exists k :: ClearedAt(worlds, actions, k, j, t, worlds[j].threads[t])
                        && forall i :: 0 <= i <= k ==> NotGone(worlds[i], worlds[j].threads[t].sid)
  {
    assert Step(worlds[j], actions[j], worlds[j + 1]);
    JudgingWasCleared(worlds, actions, j, t);
    var th := worlds[j].threads[t];
    var k :| ClearedAt(worlds, actions, k, j, t, th);
    OnlineSoNotGone(worlds, actions, k, th.sid);
  }

  predicate NotGone(w: World, sid: Sid) {
    sid in w.s.accounts ==> Online(w.s, sid)
  }

  lemma OnlineSoNotGone(worlds: seq<World>, actions: seq<Action>, k: nat, sid: Sid)
    requires Run(worlds, actions) && k <= |actions| && Online(worlds[k].s, sid)
    ensures forall i :: 0 <= i <= k ==> NotGone(worlds[i], sid)
  {
    forall i | 0 <= i <= k
      ensures NotGone(worlds[i], sid)
    {
      if sid in worlds[i].s.accounts && !Online(worlds[i].s, sid) {
        OfflineForever(worlds, actions, i, k, sid);
      }
    }
  }

  // The same for packets on their way out.
  ghost predicate CheckedAt(worlds: seq<World>, actions: seq<Action>, k: int, n: nat, t: nat, th: Thread) {
    && 0 <= k < n < |worlds| && n <= |actions| && th.Checked?
    && actions[k] == Check(t) && Online(worlds[k].s, th.sid)
    && forall m :: k < m <= n ==> t in worlds[m].threads && worlds[m].threads[t] == th
  }

  lemma CheckedFrom(w: World, a: Action, v: World, t: nat)
    requires Move(w, a, v) && t in v.threads && v.threads[t].Checked?
    ensures (t in w.threads && w.threads[t] == v.threads[t]) || (a == Check(t) && Online(w.s, v.threads[t].sid))
  {
  }

  lemma {:induction false} CheckedWasChecked(worlds: seq<World>, actions: seq<Action>, n: nat, t: nat)
    requires Run(worlds, actions) && n <= |actions|
    requires t in worlds[n].threads && worlds[n].threads[t].Checked?
    ensures exists k :: CheckedAt(worlds, actions, k, n, t, worlds[n].threads[t])
  {
    var th := worlds[n].threads[t];
    assert n > 0;
    StepMoves(worlds[n - 1], actions[n - 1], worlds[n]);
    CheckedFrom(worlds[n - 1], actions[n - 1], worlds[n], t);
    if t in worlds[n - 1].threads && worlds[n - 1].threads[t] == th {
      CheckedWasChecked(worlds, actions, n - 1, t);
      var k :| CheckedAt(worlds, actions, k, n - 1, t, th);
      assert CheckedAt(worlds, actions, k, n, t, th);
    } else {
      assert CheckedAt(worlds, actions, n - 1, n, t, th);
    }
  }

  lemma SentWasChecked(worlds: seq<World>, actions: seq<Action>, j: nat, t: nat)
    requires Run(worlds, actions) && j < |actions| && actions[j] == Transmit(t)
    ensures t in worlds[j].threads && worlds[j].threads[t].Checked?
    ensures exists k :: CheckedAt(worlds, actions, k, j, t, worlds[j].threads[t])
                        && forall i :: 0 <= i <= k ==> NotGone(worlds[i], worlds[j].threads[t].sid)
  {
    assert Step(worlds[j], actions[j], worlds[j + 1]);
    CheckedWasChecked(worlds, actions, j, t);
    var th := worlds[j].threads[t];
    var k :| CheckedAt(worlds, actions, k, j, t, th);
    OnlineSoNotGone(worlds, actions, k, th.sid);
  }

  // ----- windows -----

  predicate Inbound(th: Thread) {
    th.Found? || th.Decrypted? || th.Judging?
  }

  // Goroutines hold sessions of their own connection.
  ghost predicate ThreadsOwn(w: World) {
    forall t :: t in w.threads && Inbound(w.threads[t]) ==>
      w.threads[t].sid in w.s.accounts && w.s.accounts[w.threads[t].sid].conn == w.threads[t].conn
  }

  lemma ThreadOrigin(w: World, a: Action, v: World, t: nat)
    requires Move(w, a, v) && ThreadsOwn(w) && Filed(w.s)
    requires t in v.threads && Inbound(v.threads[t])
    ensures v.threads[t].sid in w.s.accounts && w.s.accounts[v.threads[t].sid].conn == v.threads[t].conn
  {
    assert t in w.threads && v.threads[t] == w.threads[t] ==> Inbound(w.threads[t]);
  }

  // An account's connection, user and grants never change.
  lemma StepKeepsAccount(w: World, a: Action, v: World, sid: Sid)
    requires Step(w, a, v) && sid in w.s.accounts
    ensures sid in v.s.accounts
    ensures var x, y := w.s.accounts[sid], v.s.accounts[sid]; y == x.(cipher := y.cipher, viaRoutes := y.viaRoutes)
  {
    if !ChangesTables(a) {
      PacketStepIsQuiet(w, a, v);
    }
  }

  lemma {:induction false} RunKeepsThreads(worlds: seq<World>, actions: seq<Action>, n: nat)
    requires Run(worlds, actions) && n <= |actions|
    ensures ThreadsOwn(worlds[n])
  {
    if n > 0 {
      RunKeepsThreads(worlds, actions, n - 1);
      RunKeepsFiled(worlds, actions, n - 1);
      var w, a, v := worlds[n - 1], actions[n - 1], worlds[n];
      StepMoves(w, a, v);
      forall t | t in v.threads && Inbound(v.threads[t])
        ensures v.threads[t].sid in v.s.accounts && v.s.accounts[v.threads[t].sid].conn == v.threads[t].conn
      {
        ThreadOrigin(w, a, v, t);
        StepKeepsAccount(w, a, v, v.threads[t].sid);
      }
    }
  }

  predicate WindowMoves(s: State, t: State, sid: Sid) {
    && HasCipher(s, sid) && HasCipher(t, sid)
    && t.accounts[sid].cipher.value.window != s.accounts[sid].cipher.value.window
  }

  // The replay window of a session moves only for a frame that arrived on that
  // session's own connection; a late frame of the replaced one cannot touch it.
  lemma WindowMovesOnlyForOwnFrames(worlds: seq<World>, actions: seq<Action>, n: nat, sid: Sid)
    requires Run(worlds, actions) && n < |actions|
    ensures WindowMoves(worlds[n].s, worlds[n + 1].s, sid) ==>
              && actions[n].Decrypt? && actions[n].t in worlds[n].threads
              && var th := worlds[n].threads[actions[n].t];
                 th.Found? && th.sid == sid && th.conn == worlds[n].s.accounts[sid].conn
  {
    RunKeepsThreads(worlds, actions, n);
    assert Step(worlds[n], actions[n], worlds[n + 1]);
  }

  // ----- ciphers that are gone -----

  // RegisterVPN's first section takes this session out, and its cipher with it.
  predicate Detaches(w: World, a: Action, sid: Sid) {
    a.Begin? && Registered(w.s, a.user) && w.s.sessions[a.user] == sid
  }

  lemma CipherStep(w: World, a: Action, v: World, sid: Sid)
    requires Step(w, a, v) && sid in w.s.accounts
    ensures HasCipher(v.s, sid) <==> HasCipher(w.s, sid) && !Detaches(w, a, sid)
  {
    if !ChangesTables(a) {
      QuietCipher(w, a, v, sid);
    }
  }

  lemma QuietCipher(w: World, a: Action, v: World, sid: Sid)
    requires !ChangesTables(a) && PacketStep(w, a, v) && sid in w.s.accounts
    ensures HasCipher(v.s, sid) <==> HasCipher(w.s, sid)
  {
    if a.Deliver? {
      DeliverIsQuiet(w, a.t, w.threads[a.t]);
    }
  }

  // Between two states of a run a session with a cipher loses it if and only if a
  // registration takes the session out.
  lemma {:induction false} CipherGoneExactly(worlds: seq<World>, actions: seq<Action>, i: nat, j: nat, sid: Sid)
    requires Run(worlds, actions) && i <= j <= |actions| && HasCipher(worlds[i].s, sid)
    ensures sid in worlds[j].s.accounts
    ensures !HasCipher(worlds[j].s, sid) <==> exists k :: i <= k < j && Detaches(worlds[k], actions[k], sid)
  {
    if i < j {
      CipherGoneExactly(worlds, actions, i, j - 1, sid);
      assert Step(worlds[j - 1], actions[j - 1], worlds[j]);
      CipherStep(worlds[j - 1], actions[j - 1], worlds[j], sid);
      StepKeepsAccount(worlds[j - 1], actions[j - 1], worlds[j], sid);
    }
  }

  // Step i is where the goroutine took hold of a session: HandleInbound's look-up,
  // or sendToAccount's first test.
  predicate TakesHold(a: Action, t: nat) {
    (a.Lookup? || a.Pick? || a.Deliver?) && a.t == t
  }

  ghost predicate Holds(worlds: seq<World>, i: nat, j: nat, t: nat, sid: Sid) {
    forall k :: i < k <= j < |worlds| ==> t in worlds[k].threads && worlds[k].threads[t].sid == sid
  }

  lemma HoldNeedsCipher(w: World, a: Action, v: World, t: nat)
    requires Step(w, a, v) && TakesHold(a, t) && t in v.threads
    ensures HasCipher(v.s, v.threads[t].sid)
  {
  }

  // Both tested the cipher when they took hold of the session, and use it later
  // without a lock. The use is a call on nil, and the goroutine panics, if and only
  // if a registration of the same user took the session out in between.
  lemma PanicsExactly(worlds: seq<World>, actions: seq<Action>, i: nat, j: nat, t: nat, sid: Sid)
    requires Run(worlds, actions) && i < j < |actions|
    requires TakesHold(actions[i], t) && Holds(worlds, i, j, t, sid)
    requires actions[j] == Decrypt(t) || actions[j] == Transmit(t)
    ensures (worlds[j + 1].crashed == worlds[j].crashed + [sid]
             <==> exists k :: i < k < j && Detaches(worlds[k], actions[k], sid))
    ensures worlds[j + 1].crashed == worlds[j].crashed || worlds[j + 1].crashed == worlds[j].crashed + [sid]
  {
    assert Step(worlds[i], actions[i], worlds[i + 1]) && Step(worlds[j], actions[j], worlds[j + 1]);
    HoldNeedsCipher(worlds[i], actions[i], worlds[i + 1], t);
    CipherGoneExactly(worlds, actions, i + 1, j, sid);
    assert |worlds[j].crashed + [sid]| != |worlds[j].crashed|;
  }

  // It happens to a frame on its way in ...
  lemma InboundPanics(a: Account, data: seq<Bytes.Byte>) returns (worlds: seq<World>, actions: seq<Action>, w: World)
    requires a.viaRoutes == [] && a.cipher.Some?
    ensures Leads(worlds, actions, w) && w.crashed == [0]
  {
    var before, w1 := FirstRegistration(a);
    var w2 := w1.(threads := map[0 := Found(0, a.conn, data)]);
    var w3 := w2.(s := Detach(w2.s, a.user), registering := w2.registering + multiset{a.user},
        takenOver := w2.takenOver + [0]);
    w := w3.(threads := map[], crashed := [0]);
    assert Step(w1, Lookup(0, a.user, a.conn, data), w2);
    assert Step(w2, Begin(a.user), w3);
    assert w3.threads - {0} == map[] && w3.crashed + [0] == [0];
    assert Step(w3, Decrypt(0), w);
    actions := [Begin(a.user), Finish(0, a)];
    OneStepMore(before, actions, w1, Lookup(0, a.user, a.conn, data), w2);
    worlds, actions := before + [w2], actions + [Lookup(0, a.user, a.conn, data)];
    OneStepMore(worlds, actions, w2, Begin(a.user), w3);
    worlds, actions := worlds + [w3], actions + [Begin(a.user)];
    OneStepMore(worlds, actions, w3, Decrypt(0), w);
    worlds, actions := worlds + [w], actions + [Decrypt(0)];
  }

  // ... and to a packet on its way out, after its session was checked.
  lemma OutboundPanics(a: Account, plain: seq<Bytes.Byte>) returns (worlds: seq<World>, actions: seq<Action>, w: World)
    requires a.viaRoutes == [] && a.cipher.Some?
    ensures Leads(worlds, actions, w) && w.crashed == [0] && Check(0) in actions
  {
    var before, clicks, w1 := PacketIsChecked(a, plain);
    var w2 := w1.(s := Detach(w1.s, a.user),
                  registering := w1.registering + multiset{a.user},
                  takenOver := w1.takenOver + [0]);
    w := w2.(threads := map[], crashed := [0]);
    assert Step(w1, Begin(a.user), w2);
    assert w2.threads - {0} == map[] && w2.crashed + [0] == [0];
    assert Step(w2, Transmit(0), w);
    OneStepMore(before, clicks, w1, Begin(a.user), w2);
    OneStepMore(before + [w2], clicks + [Begin(a.user)], w2, Transmit(0), w);
    worlds, actions := before + [w2] + [w], clicks + [Begin(a.user)] + [Transmit(0)];
  }

  lemma PacketIsChecked(a: Account, plain: seq<Bytes.Byte>) returns (worlds: seq<World>, actions: seq<Action>, w: World)
    requires a.viaRoutes == [] && a.cipher.Some?
    ensures Leads(worlds, actions, w) && Check(0) in actions
    ensures w.threads == map[0 := Checked(0, plain, FromTUN)] && w.s == Attach(NO_SESSIONS, 0, a, []) && w.crashed == []
  {
    var before, w1 := FirstRegistration(a);
    var w2 := w1.(threads := map[0 := Picked(0, plain, FromTUN)]);
    w := w2.(threads := map[0 := Checked(0, plain, FromTUN)]);
    assert Step(w1, Pick(0, 0, plain), w2);
    assert Step(w2, Check(0), w);
    actions := [Begin(a.user), Finish(0, a)];
    OneStepMore(before, actions, w1, Pick(0, 0, plain), w2);
    OneStepMore(before + [w2], actions + [Pick(0, 0, plain)], w2, Check(0), w);
    worlds, actions := before + [w2] + [w], actions + [Pick(0, 0, plain)] + [Check(0)];
  }

  // ----- isolation, end to end -----

  predicate IsFor(plain: seq<Bytes.Byte>, ip: string) {
    IsIPv4(plain) && Addresses.Dotted(Dst(plain)) == ip
  }

  // What was seen gives the account of session sid, user u, no way to user b, who
  // owns the address ip.
  predicate Apart(q: Seen, sid: Sid, u: User, b: User, ip: string) {
    && u != b && !q.allowAll && !SessionIsActiveVia(q.s, u)
    && ip in q.s.vpnIndex && q.s.vpnIndex[ip] == b
    && (sid in q.s.accounts ==> q.s.accounts[sid].user == u && Unrelated(q.s.accounts[sid], b))
  }

  // Every question asked so far for a frame of sid was answered from such a state.
  predicate JudgedApart(th: Thread, sid: Sid, u: User, b: User, ip: string) {
    th.Judging? && th.sid == sid ==> forall i :: 0 <= i < |th.seen| ==> Apart(th.seen[i], sid, u, b, ip)
  }

  predicate NotOut(th: Thread, sid: Sid, ip: string) {
    (th.Picked? || th.Checked?) && th.origin == FromPeer(sid) ==> !IsFor(th.plain, ip)
  }

  // No packet of session sid for ip has gone anywhere, or is about to.
  ghost predicate NothingThrough(w: World, sid: Sid, u: User, b: User, ip: string) {
    && (forall t :: t in w.threads ==> JudgedApart(w.threads[t], sid, u, b, ip) && NotOut(w.threads[t], sid, ip))
    && (forall i :: 0 <= i < |w.sent| ==> !(w.sent[i].origin == FromPeer(sid) && IsFor(w.sent[i].plain, ip)))
    && (forall i :: 0 <= i < |w.tun| ==> !(w.tun[i].sid == sid && IsFor(w.tun[i].plain, ip)))
  }

  lemma ApartIsDropped(th: Thread, sid: Sid, u: User, b: User, ip: string)
    requires Judged(th) && th.sid == sid && JudgedApart(th, sid, u, b, ip) && IsFor(th.plain, ip)
    ensures VerdictOf(th) == Drop
  {
    var seen := th.seen;
    assert Apart(seen[0], sid, u, b, ip) && Apart(seen[2], sid, u, b, ip);
    assert Apart(seen[3], sid, u, b, ip) && Apart(seen[5], sid, u, b, ip);
    StrangerIsBlocked(seen[5].s.accounts[sid], b, th.plain,
                      Reads(seen[0].s, seen[1].s, seen[2].s, seen[3].s, seen[3].allowAll, seen[4].s, seen[5].s));
  }

  lemma DeliverLetsNothingThrough(w: World, t: nat, verdict: Verdict, v: World, sid: Sid, u: User, b: User, ip: string)
    requires NothingThrough(w, sid, u, b, ip) && t in w.threads && w.threads[t].Judging?
    requires PassesOn(w, t, w.threads[t], verdict, v)
    requires w.threads[t].sid == sid && IsFor(w.threads[t].plain, ip) ==> verdict == Drop
    ensures NothingThrough(v, sid, u, b, ip)
  {
  }

  lemma StepLetsNothingThrough(w: World, a: Action, v: World, sid: Sid, u: User, b: User, ip: string)
    requires Move(w, a, v) && NothingThrough(w, sid, u, b, ip) && Apart(Now(w), sid, u, b, ip)
    ensures NothingThrough(v, sid, u, b, ip)
  {
    if a.Deliver? {
      var th := w.threads[a.t];
      if th.sid == sid && IsFor(th.plain, ip) {
        ApartIsDropped(th, sid, u, b, ip);
      }
      DeliverLetsNothingThrough(w, a.t, VerdictOf(th), v, sid, u, b, ip);
    }
  }

  lemma {:induction false} NothingGetsThrough(worlds: seq<World>, actions: seq<Action>, m: nat, n: nat, sid: Sid,
          u: User, b: User, ip: string)
    requires Run(worlds, actions) && m <= n <= |actions| && NothingThrough(worlds[m], sid, u, b, ip)
    requires forall k :: m <= k < n ==> Apart(Now(worlds[k]), sid, u, b, ip)
    ensures NothingThrough(worlds[n], sid, u, b, ip)
  {
    if m < n {
      NothingGetsThrough(worlds, actions, m, n - 1, sid, u, b, ip);
      StepMoves(worlds[n - 1], actions[n - 1], worlds[n]);
      StepLetsNothingThrough(worlds[n - 1], actions[n - 1], worlds[n], sid, u, b, ip);
    }
  }

  predicate IsFromPeer(th: Thread) {
    (th.Picked? || th.Checked?) && th.origin.FromPeer?
  }

  // Packets name sessions that are known.
  ghost predicate Known(w: World) {
    && ThreadsOwn(w)
    && (forall t :: t in w.threads && IsFromPeer(w.threads[t]) ==> w.threads[t].origin.sid in w.s.accounts)
    && (forall i :: 0 <= i < |w.sent| && w.sent[i].origin.FromPeer? ==> w.sent[i].origin.sid in w.s.accounts)
    && (forall i :: 0 <= i < |w.tun| ==> w.tun[i].sid in w.s.accounts)
  }

  // In no run does a stranger's packet reach B: if from before session sid exists
  // until step n its account has no way to b, nothing it sends for b's address is
  // encrypted for any session or written to the TUN, however its goroutines are
  // interleaved with everything else.
  lemma StrangerNeverGetsThrough(worlds: seq<World>, actions: seq<Action>, m: nat, n: nat, sid: Sid, u: User,
          b: User, ip: string)
    requires Run(worlds, actions) && m <= n <= |actions| && sid !in worlds[m].s.accounts
    requires forall k :: m <= k < n ==> Apart(Now(worlds[k]), sid, u, b, ip)
    ensures forall i :: 0 <= i < |worlds[n].sent| ==>
              !(worlds[n].sent[i].origin == FromPeer(sid) && IsFor(worlds[n].sent[i].plain, ip))
    ensures forall i :: 0 <= i < |worlds[n].tun| ==>
              !(worlds[n].tun[i].sid == sid && IsFor(worlds[n].tun[i].plain, ip))
  {
    RunKeepsKnown(worlds, actions, m);
    NothingGetsThrough(worlds, actions, m, n, sid, u, b, ip);
  }

  lemma {:induction false} RunKeepsKnown(worlds: seq<World>, actions: seq<Action>, n: nat)
    requires Run(worlds, actions) && n <= |actions|
    ensures Known(worlds[n])
  {
    RunKeepsThreads(worlds, actions, n);
    if n > 0 {
      RunKeepsKnown(worlds, actions, n - 1);
      assert Step(worlds[n - 1], actions[n - 1], worlds[n]);
      StepKeepsKnown(worlds[n - 1], actions[n - 1], worlds[n]);
    }
  }

  lemma StepKeepsKnown(w: World, a: Action, v: World)
    requires Step(w, a, v) && Known(w) && ThreadsOwn(v)
    ensures Known(v)
  {
    forall sid | sid in w.s.accounts
      ensures sid in v.s.accounts
    {
      StepKeepsAccount(w, a, v, sid);
    }
    StepMoves(w, a, v);
    MoveKeepsKnown(w, a, v);
  }

  lemma MoveKeepsKnown(w: World, a: Action, v: World)
    requires Move(w, a, v) && Known(w) && ThreadsOwn(v) && w.s.accounts.Keys <= v.s.accounts.Keys
    ensures Known(v)
  {
  }
}
