// Every interleaving of registrations, removals, kicks, prunings, changes of
// address owners and packets in flight, one critical section a step. RegisterVPN
// gives up the lock between taking the old session out and putting the new one
// in; HandleInbound between finding the session, decrypting, checking again and
// each question of the policy; sendToAccount between its tests and the cipher.
// Here is what becomes of the indexes and the sessions; PacketRuns.dfy follows
// the packets.
module SessionRuns {
  import opened Bytes
  import PacketPolicy
  import opened SessionState
  import Sorting
  import TunnelSession
  import opened Wrappers

  // What one question asked under the lock was answered from.
  datatype Seen = Seen(s: State, allowAll: bool)

  // Who a packet on its way out came from.
  datatype Origin = FromTUN | FromPeer(sid: Sid)

  // Where a goroutine stands: on its way in (found its session, decrypted,
  // checked again and judging) or on its way out (holds a session, has checked it).
  datatype Thread =
    | Found(sid: Sid, conn: Conn, data: seq<Byte>)
    | Decrypted(sid: Sid, conn: Conn, plain: seq<Byte>)
    | Judging(sid: Sid, conn: Conn, plain: seq<Byte>, seen: seq<Seen>)
    | Picked(sid: Sid, plain: seq<Byte>, origin: Origin)
    | Checked(sid: Sid, plain: seq<Byte>, origin: Origin)

  datatype Written = Written(sid: Sid, plain: seq<Byte>)

  datatype Sent = Sent(sid: Sid, plain: seq<Byte>, origin: Origin)

  datatype World = World(
    s: State,
    allowAll: bool,
    registering: multiset<User>,   // between the two sections of RegisterVPN
    takenOver: seq<Sid>,           // replaced, without a disconnect
    disconnected: seq<Sid>,        // disconnect handler called
    threads: map<nat, Thread>,
    tun: seq<Written>,             // packets written to the TUN
    sent: seq<Sent>,               // packets encrypted for a session
    crashed: seq<Sid>)             // calls on a cipher that was gone

  datatype Action =
    | Begin(user: User)
    | Finish(sid: Sid, account: Account)
    | Remove(user: User, conn: Conn)
    | Kick(user: User)
    | Prune(via: User, registry: set<string>)
    | Index(ip: string, user: User)     // RegisterVPNIP, when an account is given an address
    | Unindex(ip: string)               // UnregisterVPNIP, when it loses one
    | SetPeering(allow: bool)
    | Lookup(t: nat, user: User, conn: Conn, data: seq<Byte>)
    | Decrypt(t: nat)
    | Recheck(t: nat)
    | Ask(t: nat)                       // the next question of the packet policy
    | Deliver(t: nat)
    | Pick(t: nat, sid: Sid, plain: seq<Byte>)
    | Check(t: nat)
    | Transmit(t: nat)

  const NO_SESSIONS := State(map[], map[], map[], [], map[])

  ghost predicate Initial(w: World) {
    w == World(NO_SESSIONS, false, multiset{}, [], [], map[], [], [], [])
  }

  function SetCipher(s: State, sid: Sid, c: Cipher): State
    requires sid in s.accounts
  {
    s.(accounts := s.accounts[sid := s.accounts[sid].(cipher := Some(c))])
  }

  predicate HasCipher(s: State, sid: Sid) {
    sid in s.accounts && s.accounts[sid].cipher.Some?
  }

  predicate ChangesTables(a: Action) {
    a.Begin? || a.Finish? || a.Remove? || a.Kick? || a.Prune? || a.Index? || a.Unindex?
  }

  ghost predicate Step(w: World, a: Action, v: World) {
    if ChangesTables(a) then SessionStep(w, a, v) else PacketStep(w, a, v)
  }

  // Sections that change who is online, or their routes.
  ghost predicate SessionStep(w: World, a: Action, v: World)
    requires ChangesTables(a)
  {
    match a
    case Begin(u) => BeginStep(w, u, v)
    case Finish(sid, account) => FinishStep(w, sid, account, v)
    case Remove(u, conn) =>
      if Registered(w.s, u) && Current(w.s, u).conn == conn then LeaveStep(w, u, v) else v == w
    case Kick(u) =>
      if Registered(w.s, u) then LeaveStep(w, u, v) else v == w
    case Prune(via, registry) =>
      v == w.(s := Pruned(w.s, via, registry, v.s.viaIndex)) && Indexed(v.s)
    case Index(ip, u) => v == w.(s := w.s.(vpnIndex := w.s.vpnIndex[ip := u]))
    case Unindex(ip) => v == w.(s := w.s.(vpnIndex := w.s.vpnIndex - {ip}))
  }

  ghost predicate BeginStep(w: World, u: User, v: World) {
    v == if Registered(w.s, u)
         then w.(s := Detach(w.s, u),
                 registering := w.registering + multiset{u},
                 takenOver := w.takenOver + [w.s.sessions[u]])
         else w.(registering := w.registering + multiset{u})
  }

  ghost predicate FinishStep(w: World, sid: Sid, account: Account, v: World) {
    && account.user in w.registering && sid !in w.s.accounts
    && v == w.(s := Attach(w.s, sid, account, v.s.viaIndex), registering := w.registering - multiset{account.user})
    && Indexed(v.s)
  }

  ghost predicate LeaveStep(w: World, u: User, v: World)
    requires Registered(w.s, u)
  {
    && v == w.(s := Leave(w.s, u, v.s.viaIndex), disconnected := w.disconnected + [w.s.sessions[u]])
    && Indexed(v.s)
  }

  // Steps of goroutines with a frame or a packet in hand, and the peering switch.
  ghost predicate PacketStep(w: World, a: Action, v: World)
    requires !ChangesTables(a)
  {
    match a
    case SetPeering(allow) => v == w.(allowAll := allow)
    case Lookup(t, u, conn, data) =>
      && t !in w.threads
      && v == if Registered(w.s, u) && Current(w.s, u).conn == conn && Current(w.s, u).cipher.Some?
              then w.(threads := w.threads[t := Found(w.s.sessions[u], conn, data)])
              else w
    case Decrypt(t) =>
      t in w.threads && w.threads[t].Found? && DecryptStep(w, t, w.threads[t], v)
    case Recheck(t) =>
      t in w.threads && w.threads[t].Decrypted? && v == Rechecked(w, t, w.threads[t])
    case Ask(t) =>
      && t in w.threads && w.threads[t].Judging?
      && var th := w.threads[t];
         v == w.(threads := w.threads[t := th.(seen := th.seen + [Seen(w.s, w.allowAll)])])
    case Deliver(t) =>
      t in w.threads && Judged(w.threads[t]) && v == Delivered(w, t, w.threads[t])
    case Pick(t, sid, plain) =>
      && t !in w.threads
      && v == if HasCipher(w.s, sid) then w.(threads := w.threads[t := Picked(sid, plain, FromTUN)]) else w
    case Check(t) =>
      t in w.threads && w.threads[t].Picked? && v == CheckedAgain(w, t, w.threads[t])
    case Transmit(t) =>
      t in w.threads && w.threads[t].Checked? && v == Transmitted(w, t, w.threads[t])
  }

  // Decrypting with a cipher that was taken away meanwhile is a call on nil: the
  // goroutine panics.
  ghost predicate DecryptStep(w: World, t: nat, th: Thread, v: World)
    requires th.Found?
  {
    if HasCipher(w.s, th.sid) then
      var c := w.s.accounts[th.sid].cipher.value;
      var (window, opening) := TunnelSession.Receive(c.tunnel, c.window, th.data);
      && v.s == SetCipher(w.s, th.sid, c.(window := window))
      && v == w.(s := v.s, threads := match opening
                   case Ok(plain) => w.threads[t := Decrypted(th.sid, th.conn, plain)]
                   case Err(_) => w.threads - {t})
    else v == w.(threads := w.threads - {t}, crashed := w.crashed + [th.sid])
  }

  function Rechecked(w: World, t: nat, th: Thread): World
    requires th.Decrypted?
  {
    if Online(w.s, th.sid) && w.s.accounts[th.sid].conn == th.conn
    then w.(threads := w.threads[t := Judging(th.sid, th.conn, th.plain, [])])
    else w.(threads := w.threads - {t})
  }

  // All questions have been asked. The account is the one the last of them saw:
  // only its managed routes ever change.
  predicate Judged(th: Thread) {
    th.Judging? && |th.seen| == 6 && th.sid in th.seen[5].s.accounts
  }

  function VerdictOf(th: Thread): PacketPolicy.Verdict
    requires Judged(th)
  {
    PacketPolicy.Decide(th.seen[5].s.accounts[th.sid], th.plain,
           PacketPolicy.Reads(th.seen[0].s, th.seen[1].s, th.seen[2].s, th.seen[3].s, th.seen[3].allowAll,
               th.seen[4].s, th.seen[5].s))
  }

  function Delivered(w: World, t: nat, th: Thread): World
    requires Judged(th)
  {
    match VerdictOf(th)
    case ToTUN => w.(threads := w.threads - {t}, tun := w.tun + [Written(th.sid, th.plain)])
    case ToPeer(peer) =>
      if HasCipher(w.s, peer) then w.(threads := w.threads[t := Picked(peer, th.plain, FromPeer(th.sid))])
      else w.(threads := w.threads - {t})
    case _ => w.(threads := w.threads - {t})
  }

  function CheckedAgain(w: World, t: nat, th: Thread): World
    requires th.Picked?
  {
    if Online(w.s, th.sid) then w.(threads := w.threads[t := Checked(th.sid, th.plain, th.origin)])
    else w.(threads := w.threads - {t})
  }

  function Transmitted(w: World, t: nat, th: Thread): World
    requires th.Checked?
  {
    if HasCipher(w.s, th.sid) then
      var c := w.s.accounts[th.sid].cipher.value;
      w.(s := SetCipher(w.s, th.sid, c.(sent := (c.sent + 1) % TunnelSession.COUNTERS)),
         threads := w.threads - {t}, sent := w.sent + [Sent(th.sid, th.plain, th.origin)])
    else w.(threads := w.threads - {t}, crashed := w.crashed + [th.sid])
  }

  // What the callers owe: one registration per user at a time, addresses of
  // online sessions that differ, and no change of owner under an online session.
  ghost predicate Orderly(w: World, a: Action) {
    && (a.Begin? ==> a.user !in w.registering)
    && (a.Finish? ==> a.account.vpnIP !in w.s.byIP)
    && (a.Index? ==> OwnerStands(w.s, a.ip, Some(a.user)))
    && (a.Unindex? ==> OwnerStands(w.s, a.ip, None))
  }

  // The new owner of an address, if any, is the one whose session is online under it.
  predicate OwnerStands(s: State, ip: string, owner: Option<User>) {
    ip in s.byIP && s.byIP[ip] in s.accounts ==> owner == Some(s.accounts[s.byIP[ip]].user)
  }

  ghost predicate Run(worlds: seq<World>, actions: seq<Action>) {
    && |worlds| == |actions| + 1
    && Initial(worlds[0])
    && forall i :: 0 <= i < |actions| ==> Step(worlds[i], actions[i], worlds[i + 1])
  }

  ghost predicate OrderlyRun(worlds: seq<World>, actions: seq<Action>) {
    Run(worlds, actions) && forall i :: 0 <= i < |actions| ==> Orderly(worlds[i], actions[i])
  }

  // ----- the indexes -----

  ghost predicate Filed(s: State) {
    forall u :: u in s.sessions ==> s.sessions[u] in s.accounts && s.accounts[s.sessions[u]].user == u
  }

  // byIP is the online sessions by their addresses, exactly; vpnIndex knows the
  // same owners.
  ghost predicate ByIPExact(s: State) {
    && (forall ip :: ip in s.byIP ==> Online(s, s.byIP[ip]) && s.accounts[s.byIP[ip]].vpnIP == ip && ip != "")
    && (forall ip :: ip in s.byIP ==> ip in s.vpnIndex && s.vpnIndex[ip] == s.accounts[s.byIP[ip]].user)
    && (forall sid :: Online(s, sid) && s.accounts[sid].vpnIP != "" ==>
          s.accounts[sid].vpnIP in s.byIP && s.byIP[s.accounts[sid].vpnIP] == sid)
  }

  // A new session keeps byIP exact if, and only if, no online session has its
  // address already.
  lemma AttachKeepsByIP(s: State, sid: Sid, a: Account, idx: seq<Via>)
    requires Filed(s) && ByIPExact(s) && sid !in s.accounts && a.user !in s.sessions
    ensures ByIPExact(Attach(s, sid, a, idx)) <==> a.vpnIP !in s.byIP
  {
    var t := Attach(s, sid, a, idx);
    assert Online(t, sid) && t.accounts[sid] == a;
    forall other | other != sid ensures Online(t, other) <==> Online(s, other) {
    }
    if a.vpnIP in s.byIP {
      var other := s.byIP[a.vpnIP];
      assert Online(t, other) && t.accounts[other].vpnIP == a.vpnIP;
      assert t.byIP[a.vpnIP] == sid;
    }
  }

  // Changing the owner of an address keeps the indexes in agreement if, and only
  // if, no session of somebody else is online under it.
  lemma OwnerChangeKeepsByIP(s: State, t: State, ip: string, owner: Option<User>)
    requires Filed(s) && ByIPExact(s)
    requires t == s.(vpnIndex := if owner.Some? then s.vpnIndex[ip := owner.value] else s.vpnIndex - {ip})
    ensures Filed(t) && (ByIPExact(t) <==> OwnerStands(s, ip, owner))
  {
    forall sid ensures Online(t, sid) <==> Online(s, sid) {
    }
  }

  lemma DetachKeepsByIP(s: State, u: User)
    requires Filed(s) && ByIPExact(s) && Registered(s, u)
    ensures Filed(Detach(s, u)) && ByIPExact(Detach(s, u))
  {
    RemovalKeepsByIP(s, Detach(s, u), u);
  }

  lemma LeaveKeepsByIP(s: State, u: User, idx: seq<Via>)
    requires Filed(s) && ByIPExact(s) && Registered(s, u)
    ensures Filed(Leave(s, u, idx)) && ByIPExact(Leave(s, u, idx))
  {
    RemovalKeepsByIP(s, Leave(s, u, idx), u);
  }

  lemma RemovalKeepsByIP(s: State, t: State, u: User)
    requires Filed(s) && ByIPExact(s) && Registered(s, u)
    requires t.sessions == s.sessions - {u} && t.byIP == WithoutIP(s.byIP, Current(s, u).vpnIP)
    requires t.vpnIndex == s.vpnIndex
    requires t.accounts.Keys == s.accounts.Keys
    requires forall sid :: sid in s.accounts ==>
               t.accounts[sid].user == s.accounts[sid].user && t.accounts[sid].vpnIP == s.accounts[sid].vpnIP
    ensures Filed(t) && ByIPExact(t)
  {
    forall sid | sid in s.accounts ensures Online(t, sid) <==> Online(s, sid) && s.accounts[sid].user != u {
    }
  }

  // Changing ciphers or routes leaves addresses and users alone.
  lemma SameAddressesKeepByIP(s: State, t: State)
    requires Filed(s) && ByIPExact(s)
    requires t.sessions == s.sessions && t.byIP == s.byIP && t.vpnIndex == s.vpnIndex
        && t.accounts.Keys == s.accounts.Keys
    requires forall sid :: sid in s.accounts ==>
               t.accounts[sid].user == s.accounts[sid].user && t.accounts[sid].vpnIP == s.accounts[sid].vpnIP
    ensures Filed(t) && ByIPExact(t)
  {
    forall sid ensures Online(t, sid) <==> Online(s, sid) {
    }
  }

  // ----- what becomes of a session -----

  // Online, or taken over without a disconnect, or disconnected once: each
  // session ever registered is in exactly one of these.
  ghost predicate FatesExact(w: World) {
    && Sorting.Distinct(w.takenOver) && Sorting.Distinct(w.disconnected)
    && (forall sid :: sid in w.takenOver ==> sid in w.s.accounts && sid !in w.disconnected && !Online(w.s, sid))
    && (forall sid :: sid in w.disconnected ==> sid in w.s.accounts && !Online(w.s, sid))
    && (forall sid :: sid in w.s.accounts ==> Online(w.s, sid) || sid in w.takenOver || sid in w.disconnected)
  }

  ghost predicate Invariant(w: World) {
    && Filed(w.s)
    && ByIPExact(w.s)
    && FatesExact(w)
    && (forall u :: u in w.registering ==> w.registering[u] == 1 && u !in w.s.sessions)
    && (Indexed(w.s) || w.registering != multiset{})
  }

  lemma AppendDistinct<T>(s: seq<T>, x: T)
    requires Sorting.Distinct(s) && x !in s
    ensures Sorting.Distinct(s + [x])
  {
  }

  lemma RemovalKeepsFates(w: World, v: World, u: User)
    requires Filed(w.s) && FatesExact(w) && Registered(w.s, u)
    requires v.s.sessions == w.s.sessions - {u} && v.s.accounts.Keys == w.s.accounts.Keys
    requires forall sid :: sid in w.s.accounts ==> v.s.accounts[sid].user == w.s.accounts[sid].user
    requires var sid := w.s.sessions[u];
             || (v.takenOver == w.takenOver + [sid] && v.disconnected == w.disconnected)
             || (v.takenOver == w.takenOver && v.disconnected == w.disconnected + [sid])
    ensures FatesExact(v)
  {
    var gone := w.s.sessions[u];
    assert Online(w.s, gone);
    forall sid | sid in w.s.accounts ensures Online(v.s, sid) <==> Online(w.s, sid) && sid != gone {
    }
    AppendDistinct(w.takenOver, gone);
    AppendDistinct(w.disconnected, gone);
  }

  // Putting a session in loses none exactly when its user had none.
  lemma FinishKeepsFates(w: World, sid: Sid, a: Account, v: World)
    requires Filed(w.s) && FatesExact(w) && FinishStep(w, sid, a, v)
    ensures FatesExact(v) <==> a.user !in w.s.sessions
  {
    assert Online(v.s, sid);
    forall other | other in w.s.accounts
      ensures Online(v.s, other) <==> Online(w.s, other) && w.s.accounts[other].user != a.user
    {
    }
    if a.user in w.s.sessions {
      var lost := w.s.sessions[a.user];
      assert Online(w.s, lost) && !Online(v.s, lost) && lost in v.s.accounts;
    }
  }

  lemma SameSessionsKeepFates(w: World, v: World)
    requires FatesExact(w) && v.s.sessions == w.s.sessions && v.s.accounts.Keys == w.s.accounts.Keys
    requires forall sid :: sid in w.s.accounts ==> v.s.accounts[sid].user == w.s.accounts[sid].user
    requires v.takenOver == w.takenOver && v.disconnected == w.disconnected
    ensures FatesExact(v)
  {
    forall sid ensures Online(v.s, sid) <==> Online(w.s, sid) {
    }
  }

  lemma SameRoutesKeepIndex(s: State, t: State)
    requires Indexed(s) && t.sessions == s.sessions && t.viaIndex == s.viaIndex && t.accounts.Keys == s.accounts.Keys
    requires forall sid :: sid in s.accounts ==> t.accounts[sid].viaRoutes == s.accounts[sid].viaRoutes
    ensures Indexed(t)
  {
    var ids :| Enumerates(ids, s.sessions.Keys)
               && multiset(s.viaIndex) == multiset(Gather(ids, s.sessions, s.accounts));
    SameRoutesGather(ids, s, t);
  }

  lemma {:induction false} SameRoutesGather(ids: seq<User>, s: State, t: State)
    requires t.sessions == s.sessions && t.accounts.Keys == s.accounts.Keys
    requires forall sid :: sid in s.accounts ==> t.accounts[sid].viaRoutes == s.accounts[sid].viaRoutes
    ensures Gather(ids, s.sessions, s.accounts) == Gather(ids, t.sessions, t.accounts)
  {
    if ids != [] {
      SameRoutesGather(ids[..|ids| - 1], s, t);
    }
  }

  // Packet steps touch nothing in the tables but ciphers.
  ghost predicate Quiet(w: World, v: World) {
    && v.s == w.s.(accounts := v.s.accounts)
    && v.s.accounts.Keys == w.s.accounts.Keys
    && (forall sid :: sid in w.s.accounts ==>
          v.s.accounts[sid] == w.s.accounts[sid].(cipher := v.s.accounts[sid].cipher))
    && v.registering == w.registering && v.takenOver == w.takenOver && v.disconnected == w.disconnected
  }

  lemma PacketStepIsQuiet(w: World, a: Action, v: World)
    requires !ChangesTables(a) && PacketStep(w, a, v)
    ensures Quiet(w, v)
  {
    match a {
      case Decrypt(t) => DecryptIsQuiet(w, t, w.threads[t], v);
      case Deliver(t) => DeliverIsQuiet(w, t, w.threads[t]);
      case Transmit(t) => TransmitIsQuiet(w, t, w.threads[t]);
      case _ =>
    }
  }

  lemma DecryptIsQuiet(w: World, t: nat, th: Thread, v: World)
    requires th.Found? && DecryptStep(w, t, th, v)
    ensures Quiet(w, v)
  {
  }

  lemma DeliverIsQuiet(w: World, t: nat, th: Thread)
    requires Judged(th)
    ensures Quiet(w, Delivered(w, t, th)) && Delivered(w, t, th).s == w.s
  {
    match VerdictOf(th) {
      case ToPeer(_) =>
      case _ =>
    }
  }

  lemma TransmitIsQuiet(w: World, t: nat, th: Thread)
    requires th.Checked?
    ensures Quiet(w, Transmitted(w, t, th))
  {
  }

  lemma QuietKeepsInvariant(w: World, v: World)
    requires Invariant(w) && Quiet(w, v)
    ensures Invariant(v)
  {
    SameAddressesKeepByIP(w.s, v.s);
    SameSessionsKeepFates(w, v);
    if Indexed(w.s) {
      SameRoutesKeepIndex(w.s, v.s);
    }
  }

  lemma StepKeepsInvariant(w: World, a: Action, v: World)
    requires Invariant(w) && Step(w, a, v) && Orderly(w, a)
    ensures Invariant(v)
  {
    match a {
      case Begin(u) => BeginKeepsInvariant(w, u, v);
      case Finish(sid, account) => FinishKeepsInvariant(w, sid, account, v);
      case Remove(u, _) =>
        if v != w {
          LeaveKeepsInvariant(w, u, v);
        }
      case Kick(u) =>
        if v != w {
          LeaveKeepsInvariant(w, u, v);
        }
      case Prune(via, registry) => PruneKeepsInvariant(w, via, registry, v);
      case Index(ip, u) => OwnerChangeKeepsInvariant(w, v, ip, Some(u));
      case Unindex(ip) => OwnerChangeKeepsInvariant(w, v, ip, None);
      case _ => PacketKeepsInvariant(w, a, v);
    }
  }

  lemma PacketKeepsInvariant(w: World, a: Action, v: World)
    requires Invariant(w) && !ChangesTables(a) && PacketStep(w, a, v)
    ensures Invariant(v)
  {
    PacketStepIsQuiet(w, a, v);
    QuietKeepsInvariant(w, v);
  }

  lemma PruneKeepsInvariant(w: World, via: User, registry: set<string>, v: World)
    requires Invariant(w) && v == w.(s := Pruned(w.s, via, registry, v.s.viaIndex)) && Indexed(v.s)
    ensures Invariant(v)
  {
    SameAddressesKeepByIP(w.s, v.s);
    SameSessionsKeepFates(w, v);
  }

  lemma OwnerChangeKeepsInvariant(w: World, v: World, ip: string, owner: Option<User>)
    requires Invariant(w) && OwnerStands(w.s, ip, owner)
    requires v == w.(s := w.s.(vpnIndex := if owner.Some? then w.s.vpnIndex[ip := owner.value]
        else w.s.vpnIndex - {ip}))
    ensures Invariant(v)
  {
    OwnerChangeKeepsByIP(w.s, v.s, ip, owner);
    SameSessionsKeepFates(w, v);
    if Indexed(w.s) {
      SameRoutesKeepIndex(w.s, v.s);
    }
  }

  lemma BeginKeepsInvariant(w: World, u: User, v: World)
    requires Invariant(w) && BeginStep(w, u, v) && u !in w.registering
    ensures Invariant(v)
  {
    assert u in v.registering;
    if Registered(w.s, u) {
      DetachKeepsByIP(w.s, u);
      RemovalKeepsFates(w, v, u);
    }
  }

  lemma LeaveKeepsInvariant(w: World, u: User, v: World)
    requires Invariant(w) && Registered(w.s, u) && LeaveStep(w, u, v)
    ensures Invariant(v)
  {
    LeaveKeepsByIP(w.s, u, v.s.viaIndex);
    RemovalKeepsFates(w, v, u);
  }

  lemma FinishKeepsInvariant(w: World, sid: Sid, a: Account, v: World)
    requires Invariant(w) && FinishStep(w, sid, a, v) && a.vpnIP !in w.s.byIP
    ensures Invariant(v)
  {
    AttachKeepsByIP(w.s, sid, a, v.s.viaIndex);
    FinishKeepsFates(w, sid, a, v);
    assert w.registering[a.user] == 1;
  }

  lemma {:induction false} OrderlyRunKeepsInvariant(worlds: seq<World>, actions: seq<Action>, n: nat)
    requires OrderlyRun(worlds, actions) && n <= |actions|
    ensures Invariant(worlds[n])
  {
    if n == 0 {
      assert Enumerates([], worlds[0].s.sessions.Keys);
    } else {
      OrderlyRunKeepsInvariant(worlds, actions, n - 1);
      StepKeepsInvariant(worlds[n - 1], actions[n - 1], worlds[n]);
    }
  }

  // So in every orderly run packets are judged on indexes that agree.
  lemma RunIsCoherent(worlds: seq<World>, actions: seq<Action>, n: nat)
    requires OrderlyRun(worlds, actions) && n <= |actions|
    ensures PacketPolicy.Coherent(worlds[n].s)
  {
    OrderlyRunKeepsInvariant(worlds, actions, n);
  }

  // With no registration between its sections, the via index is the one sorted
  // listing of the online sessions' routes.
  lemma IndexedWhenSettled(worlds: seq<World>, actions: seq<Action>, n: nat, idx: seq<Via>)
    requires OrderlyRun(worlds, actions) && n <= |actions| && worlds[n].registering == multiset{}
    requires IsViaIndex(idx, worlds[n].s.sessions, worlds[n].s.accounts)
    ensures worlds[n].s.viaIndex == idx
  {
    OrderlyRunKeepsInvariant(worlds, actions, n);
    ViaIndexUnique(worlds[n].s.viaIndex, idx, worlds[n].s.sessions, worlds[n].s.accounts);
  }

  // ----- every run, orderly or not -----

  // A session that is neither online, nor taken over, nor disconnected.
  predicate Lost(w: World, sid: Sid) {
    sid in w.s.accounts && !Online(w.s, sid) && sid !in w.takenOver && sid !in w.disconnected
  }

  // Once a session is out it is never the current one again.
  lemma StepKeepsOffline(w: World, a: Action, v: World, sid: Sid)
    requires Step(w, a, v) && sid in w.s.accounts && !Online(w.s, sid)
    ensures sid in v.s.accounts && !Online(v.s, sid)
  {
    if !ChangesTables(a) {
      PacketStepIsQuiet(w, a, v);
    }
  }

  lemma {:induction false} OfflineForever(worlds: seq<World>, actions: seq<Action>, i: nat, j: nat, sid: Sid)
    requires Run(worlds, actions) && i <= j <= |actions|
    requires sid in worlds[i].s.accounts && !Online(worlds[i].s, sid)
    ensures sid in worlds[j].s.accounts && !Online(worlds[j].s, sid)
  {
    if i < j {
      OfflineForever(worlds, actions, i, j - 1, sid);
      StepKeepsOffline(worlds[j - 1], actions[j - 1], worlds[j], sid);
    }
  }

  lemma StepKeepsFiled(w: World, a: Action, v: World)
    requires Step(w, a, v) && Filed(w.s)
    ensures Filed(v.s)
  {
    if !ChangesTables(a) {
      PacketStepIsQuiet(w, a, v);
    }
  }

  lemma {:induction false} RunKeepsFiled(worlds: seq<World>, actions: seq<Action>, n: nat)
    requires Run(worlds, actions) && n <= |actions|
    ensures Filed(worlds[n].s)
  {
    if n > 0 {
      RunKeepsFiled(worlds, actions, n - 1);
      StepKeepsFiled(worlds[n - 1], actions[n - 1], worlds[n]);
    }
  }

  // A lost session stays lost: only an online one is taken over or disconnected.
  lemma LostForGood(w: World, a: Action, v: World, sid: Sid)
    requires Step(w, a, v) && Filed(w.s) && Lost(w, sid)
    ensures Lost(v, sid)
  {
    StepKeepsOffline(w, a, v, sid);
    if !ChangesTables(a) {
      PacketStepIsQuiet(w, a, v);
    } else if (a.Begin? || a.Remove? || a.Kick?) && Registered(w.s, a.user) {
      assert Online(w.s, w.s.sessions[a.user]);
    }
  }

  // The second section of a registration finds its user offline.
  predicate FindsRoom(w: World, a: Action) {
    a.Finish? ==> a.account.user !in w.s.sessions
  }

  lemma StepFates(w: World, a: Action, v: World)
    requires Step(w, a, v) && Filed(w.s) && FatesExact(w)
    ensures FatesExact(v) <==> FindsRoom(w, a)
    ensures !FindsRoom(w, a) ==> exists sid :: Lost(v, sid)
  {
    if a.Finish? {
      FinishFates(w, a.sid, a.account, v);
    } else {
      OtherFates(w, a, v);
    }
  }

  lemma OtherFates(w: World, a: Action, v: World)
    requires Step(w, a, v) && Filed(w.s) && FatesExact(w) && !a.Finish?
    ensures FatesExact(v)
  {
    if a.Begin? {
      BeginFates(w, a.user, v);
    } else if a.Remove? || a.Kick? {
      if v != w {
        LeaveFates(w, a.user, v);
      }
    } else {
      UntouchedFates(w, a, v);
    }
  }

  lemma UntouchedFates(w: World, a: Action, v: World)
    requires Step(w, a, v) && FatesExact(w)
    requires !(a.Begin? || a.Finish? || a.Remove? || a.Kick?)
    ensures FatesExact(v)
  {
    if !ChangesTables(a) {
      PacketStepIsQuiet(w, a, v);
    }
    SameSessionsKeepFates(w, v);
  }

  lemma BeginFates(w: World, u: User, v: World)
    requires BeginStep(w, u, v) && Filed(w.s) && FatesExact(w)
    ensures FatesExact(v)
  {
    if Registered(w.s, u) {
      RemovalKeepsFates(w, v, u);
    } else {
      SameSessionsKeepFates(w, v);
    }
  }

  lemma LeaveFates(w: World, u: User, v: World)
    requires Registered(w.s, u) && LeaveStep(w, u, v) && Filed(w.s) && FatesExact(w)
    ensures FatesExact(v)
  {
    RemovalKeepsFates(w, v, u);
  }

  lemma FinishFates(w: World, sid: Sid, a: Account, v: World)
    requires FinishStep(w, sid, a, v) && Filed(w.s) && FatesExact(w)
    ensures FatesExact(v) <==> a.user !in w.s.sessions
    ensures a.user in w.s.sessions ==> exists lost :: Lost(v, lost)
  {
    FinishKeepsFates(w, sid, a, v);
    if a.user in w.s.sessions {
      assert Online(w.s, w.s.sessions[a.user]);
      assert Lost(v, w.s.sessions[a.user]);
    }
  }

  lemma FatesStep(w: World, a: Action, v: World)
    requires Step(w, a, v) && Filed(w.s) && (FatesExact(w) || exists sid :: Lost(w, sid))
    ensures FatesExact(v) <==> FatesExact(w) && FindsRoom(w, a)
    ensures FatesExact(v) || exists sid :: Lost(v, sid)
  {
    if FatesExact(w) {
      StepFates(w, a, v);
    } else {
      var sid :| Lost(w, sid);
      LostForGood(w, a, v, sid);
    }
  }

  // In every run: each session ever registered is in exactly one of the three
  // states if and only if every registration, when it put its session in, found
  // the user offline.
  lemma {:induction false} FatesExactlyWhen(worlds: seq<World>, actions: seq<Action>, n: nat)
    requires Run(worlds, actions) && n <= |actions|
    ensures FatesExact(worlds[n]) <==> forall k :: 0 <= k < n ==> FindsRoom(worlds[k], actions[k])
    ensures FatesExact(worlds[n]) || exists sid :: Lost(worlds[n], sid)
  {
    if n > 0 {
      FatesExactlyWhen(worlds, actions, n - 1);
      RunKeepsFiled(worlds, actions, n - 1);
      FatesStep(worlds[n - 1], actions[n - 1], worlds[n]);
    }
  }

  // A run that ends in w, one step longer.
  ghost predicate Leads(worlds: seq<World>, actions: seq<Action>, w: World) {
    Run(worlds, actions) && worlds[|actions|] == w
  }

  lemma OneStepMore(worlds: seq<World>, actions: seq<Action>, w: World, a: Action, v: World)
    requires Leads(worlds, actions, w) && Step(w, a, v)
    ensures Leads(worlds + [v], actions + [a], v)
  {
  }

  lemma NothingYet() returns (worlds: seq<World>, w: World)
    ensures Leads(worlds, [], w) && Initial(w)
  {
    w := World(NO_SESSIONS, false, multiset{}, [], [], map[], [], [], []);
    worlds := [w];
  }

  // One user registered, for the first time.
  lemma FirstRegistration(a: Account) returns (worlds: seq<World>, w: World)
    requires a.viaRoutes == []
    ensures Leads(worlds, [Begin(a.user), Finish(0, a)], w)
    ensures w.s == Attach(NO_SESSIONS, 0, a, [])
    ensures w.threads == map[] && w.sent == [] && w.tun == [] && w.crashed == []
  {
    var before, w0 := NothingYet();
    var w1 := w0.(registering := multiset{a.user});
    w := w1.(s := Attach(NO_SESSIONS, 0, a, []), registering := multiset{});
    OneSessionIndexed(w.s, a.user);
    assert w1.registering - multiset{a.user} == multiset{};
    assert Step(w0, Begin(a.user), w1);
    assert Step(w1, Finish(0, a), w);
    OneStepMore(before, [], w0, Begin(a.user), w1);
    assert [] + [Begin(a.user)] == [Begin(a.user)];
    OneStepMore(before + [w1], [Begin(a.user)], w1, Finish(0, a), w);
    assert [Begin(a.user)] + [Finish(0, a)] == [Begin(a.user), Finish(0, a)];
    worlds := before + [w1] + [w];
  }

  // Two registrations of one user between their sections at once lose the first
  // session, and such runs exist.
  lemma OverlappingRegistrationsLoseASession(a: Account, b: Account) returns (worlds: seq<World>, w: World)
    requires a.user == b.user && a.viaRoutes == [] && b.viaRoutes == []
    ensures Leads(worlds, [Begin(a.user), Begin(a.user), Finish(0, a), Finish(1, b)], w)
    ensures Lost(w, 0)
  {
    var u := a.user;
    var before, w0 := NothingYet();
    var w1 := w0.(registering := multiset{u});
    OneStepMore(before, [], w0, Begin(u), w1);
    var w2 := w0.(registering := multiset{u, u});
    assert w1.registering + multiset{u} == multiset{u, u};
    OneStepMore(before + [w1], [] + [Begin(u)], w1, Begin(u), w2);
    var w3 := w0.(s := Attach(NO_SESSIONS, 0, a, []), registering := multiset{u});
    OneSessionIndexed(w3.s, u);
    assert w2.registering - multiset{u} == multiset{u};
    OneStepMore(before + [w1] + [w2], [] + [Begin(u)] + [Begin(u)], w2, Finish(0, a), w3);
    w := LostIsReached(w3, b);
    worlds := before + [w1] + [w2] + [w3];
    OneStepMore(worlds, [] + [Begin(u)] + [Begin(u)] + [Finish(0, a)], w3, Finish(1, b), w);
    worlds := worlds + [w];
    assert [] + [Begin(u)] + [Begin(u)] + [Finish(0, a)] + [Finish(1, b)]
        == [Begin(u), Begin(u), Finish(0, a), Finish(1, b)];
  }

  lemma LostIsReached(w: World, b: Account) returns (v: World)
    requires b.viaRoutes == [] && w.s.sessions == map[b.user := 0] && w.s.accounts.Keys == {0}
    requires w.s.accounts[0].user == b.user && w.registering == multiset{b.user}
    requires w.takenOver == [] && w.disconnected == []
    ensures Step(w, Finish(1, b), v) && Lost(v, 0)
  {
    v := w.(s := Attach(w.s, 1, b, []), registering := multiset{});
    assert w.registering - multiset{b.user} == multiset{};
    OneSessionIndexed(v.s, b.user);
  }

  lemma OneSessionIndexed(s: State, u: User)
    requires s.sessions.Keys == {u} && Registered(s, u) && Current(s, u).viaRoutes == [] && s.viaIndex == []
    ensures Indexed(s)
  {
    assert [u][..0] == [] && Gather([], s.sessions, s.accounts) == [];
    assert Gather([u], s.sessions, s.accounts) == [];
    assert Enumerates([u], s.sessions.Keys);
  }
}
