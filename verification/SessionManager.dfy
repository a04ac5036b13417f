// The session manager itself: one method per critical section, proved against
// SessionState.dfy, and HandleInbound, RouteOutbound and SendToAccount on top.
module SessionManager {
  import Addresses
  import opened Bytes
  import FlowTable
  import opened PacketPolicy
  import ReplayWindow
  import opened SessionState
  import Sorting
  import TunnelSession
  import opened Wrappers

  // One packet handed to a connection, still in the clear.
  datatype Sent = Sent(sid: Sid, conn: Conn, plain: seq<Byte>)

  datatype Begun = AlreadyOnline | Proceed(replaced: Option<Sid>, rx: int, tx: int)

  datatype ViaSpec = ViaSpec(dest: Option<Addresses.Prefix>, via: User)

  // The routes with a via account, in the order given.
  function ViaList(specs: seq<ViaSpec>): seq<Via> {
    if specs == [] then []
    else
      var front, last := specs[..|specs| - 1], specs[|specs| - 1];
      ViaList(front) + if last.dest.Some? && last.via > 0 then [Via(last.dest.value, last.via)] else []
  }

  lemma {:induction false} ViaListCounts(specs: seq<ViaSpec>, v: Via)
    ensures multiset(ViaList(specs))[v] == if v.via > 0 then multiset(specs)[ViaSpec(Some(v.net), v.via)] else 0
  {
    if specs != [] {
      var front, last := specs[..|specs| - 1], specs[|specs| - 1];
      assert specs == front + [last];
      ViaListCounts(front, v);
    }
  }

  // What one inbound frame does to the receiving account.
  function AfterInbound(a: Account, cipher: Cipher, window: ReplayWindow.Window, verdict: Verdict, size: nat): Account {
    a.(cipher := Some(cipher.(window := window)),
       rx := if Counted(verdict) then a.rx + size else a.rx,
       dstDrops := if verdict.Overreach? then a.dstDrops + 1 else a.dstDrops)
  }

  // sendToAccount: the session must still be the one registered.
  predicate MaySend(s: State, sid: Sid) {
    Online(s, sid) && s.accounts[sid].cipher.Some?
  }

  // The number of the next packet is used up even if Send then fails.
  function AfterSend(a: Account, size: nat, delivered: bool): Account
    requires a.cipher.Some?
  {
    var c := a.cipher.value;
    a.(cipher := Some(c.(sent := (c.sent + 1) % TunnelSession.COUNTERS)), tx := if delivered then a.tx + size else a.tx)
  }

  // The state once a packet has been sent for sid, or refused.
  function Transmitted(s: State, sid: Sid, size: nat, delivered: bool): State {
    if MaySend(s, sid) then s.(accounts := s.accounts[sid := AfterSend(s.accounts[sid], size, delivered)]) else s
  }

  // The state once a decrypted packet has been judged, counted and passed on.
  function Handled(s: State, user: User, window: ReplayWindow.Window, verdict: Verdict, size: nat,
          delivered: bool): State
    requires Registered(s, user) && Current(s, user).cipher.Some?
  {
    var a := Current(s, user);
    var after := AfterInbound(a, a.cipher.value, window, verdict, size);
    var counted := s.(accounts := s.accounts[s.sessions[user] := after]);
    if verdict.ToPeer? then Transmitted(counted, verdict.sid, size, delivered) else counted
  }

  // Field by field: the sender's bytes count as received unless the packet was
  // dropped or out of bounds, which alone counts as such; a peer that may be sent
  // to uses up one packet number, and the bytes count as sent if its connection
  // took them; everything else is as before.
  ghost predicate CountedFor(before: Account, after: Account, isSender: bool, sentTo: bool,
          window: ReplayWindow.Window, verdict: Verdict, size: nat, delivered: bool)
  {
    && after.rx == before.rx + (if isSender && verdict != Drop && verdict != Overreach then size else 0)
    && after.dstDrops == before.dstDrops + (if isSender && verdict == Overreach then 1 else 0)
    && after.tx == before.tx + (if sentTo && delivered then size else 0)
    && after.cipher.Some? == before.cipher.Some?
    && (before.cipher.Some? ==>
          && after.cipher.value.tunnel == before.cipher.value.tunnel
          && after.cipher.value.window == (if isSender then window else before.cipher.value.window)
          && after.cipher.value.sent == (if sentTo then (before.cipher.value.sent + 1) % 0x1_0000_0000_0000_0000
                                         else before.cipher.value.sent))
    && after == before.(cipher := after.cipher, rx := after.rx, tx := after.tx, dstDrops := after.dstDrops)
  }

  lemma HandledExactly(s: State, user: User, window: ReplayWindow.Window, verdict: Verdict, size: nat, delivered: bool)
    requires Registered(s, user) && Current(s, user).cipher.Some?
    ensures var t := Handled(s, user, window, verdict, size, delivered);
      && t == s.(accounts := t.accounts) && t.accounts.Keys == s.accounts.Keys
      && forall sid :: sid in s.accounts ==>
           CountedFor(s.accounts[sid], t.accounts[sid], sid == s.sessions[user], SentTo(s, sid, verdict),
               window, verdict, size, delivered)
  {
    forall sid | sid in s.accounts
      ensures CountedFor(s.accounts[sid], Handled(s, user, window, verdict, size, delivered).accounts[sid],
                  sid == s.sessions[user], SentTo(s, sid, verdict), window, verdict, size, delivered)
    {
      HandledAccount(s, user, window, verdict, size, delivered, sid);
    }
  }

  // The packet is for this session, which is online and has a cipher.
  predicate SentTo(s: State, sid: Sid, verdict: Verdict)
    requires sid in s.accounts
  {
    && verdict == ToPeer(sid)
    && s.accounts[sid].user in s.sessions && s.sessions[s.accounts[sid].user] == sid
    && s.accounts[sid].cipher.Some?
  }

  lemma HandledAccount(s: State, user: User, window: ReplayWindow.Window, verdict: Verdict, size: nat,
          delivered: bool, sid: Sid)
    requires Registered(s, user) && Current(s, user).cipher.Some? && sid in s.accounts
    ensures CountedFor(s.accounts[sid], Handled(s, user, window, verdict, size, delivered).accounts[sid],
                sid == s.sessions[user], SentTo(s, sid, verdict), window, verdict, size, delivered)
  {
    var a := s.accounts[sid];
    var counted := if sid == s.sessions[user] then AfterInbound(a, a.cipher.value, window, verdict, size) else a;
    assert Handled(s, user, window, verdict, size, delivered).accounts[sid]
        == if SentTo(s, sid, verdict) then AfterSend(counted, size, delivered) else counted;
    if sid == s.sessions[user] {
      SenderCounts(a, window, verdict, size, delivered, SentTo(s, sid, verdict));
    } else if SentTo(s, sid, verdict) {
      TargetCounts(a, window, verdict, size, delivered);
    }
  }

  lemma SenderCounts(a: Account, window: ReplayWindow.Window, verdict: Verdict, size: nat, delivered: bool,
          sentTo: bool)
    requires a.cipher.Some?
    ensures var b := AfterInbound(a, a.cipher.value, window, verdict, size);
            CountedFor(a, if sentTo then AfterSend(b, size, delivered) else b, true, sentTo,
                window, verdict, size, delivered)
  {
  }

  lemma TargetCounts(a: Account, window: ReplayWindow.Window, verdict: Verdict, size: nat, delivered: bool)
    requires a.cipher.Some?
    ensures CountedFor(a, AfterSend(a, size, delivered), false, true, window, verdict, size, delivered)
  {
  }

  // Account by account: after a prune the session of each online user has lost its
  // routes through the via that the registry does not know, and nothing else has
  // changed.
  lemma PrunedExactly(s: State, via: User, registry: set<string>, idx: seq<Via>, sid: Sid, v: Via)
    requires sid in s.accounts
    ensures var t := Pruned(s, via, registry, idx);
      && t == s.(accounts := t.accounts, viaIndex := idx) && t.accounts.Keys == s.accounts.Keys
      && t.accounts[sid] == s.accounts[sid].(viaRoutes := t.accounts[sid].viaRoutes)
      && (if s.accounts[sid].user in s.sessions && s.sessions[s.accounts[sid].user] == sid then
            multiset(t.accounts[sid].viaRoutes)[v]
              == if v.via != via || v.net.Text() in registry then multiset(s.accounts[sid].viaRoutes)[v] else 0
          else t.accounts[sid] == s.accounts[sid])
  {
    KeptExactly(s.accounts[sid].viaRoutes, via, registry, v);
  }

  lemma LosersExactly(s: State, via: User, registry: set<string>, u: User)
    ensures u in Losers(s, via, registry, s.sessions.Keys) <==>
      && u in s.sessions && s.sessions[u] in s.accounts
      && exists v :: v in s.accounts[s.sessions[u]].viaRoutes && v.via == via && v.net.Text() !in registry
  {
  }

  ghost predicate LosesRoute(a: Account, via: User, registry: set<string>) {
    exists v :: v in a.viaRoutes && !Keeps(v, via, registry)
  }

  ghost function Losers(s: State, via: User, registry: set<string>, users: set<User>): set<User> {
    set u | u in users && Registered(s, u) && LosesRoute(Current(s, u), via, registry)
  }

  lemma OneRouteMore(routes: seq<Via>, i: nat, via: User, registry: set<string>)
    requires i < |routes|
    ensures routes[..i + 1] == routes[..i] + [routes[i]]
    ensures KeptRoutes(routes[..i + 1], via, registry)
         == KeptRoutes(routes[..i], via, registry) + if Keeps(routes[i], via, registry) then [routes[i]] else []
    ensures forall v :: v in routes[..i + 1] <==> v in routes[..i] || v == routes[i]
  {
    assert routes[..i + 1] == routes[..i] + [routes[i]];
    assert routes[..i + 1][..i] == routes[..i];
  }

  lemma LosersOneMore(s: State, via: User, registry: set<string>, users: set<User>, u: User)
    requires Registered(s, u)
    ensures Losers(s, via, registry, users + {u})
         == Losers(s, via, registry, users) + if LosesRoute(Current(s, u), via, registry) then {u} else {}
  {
  }

  class Manager {
    var sessions: map<User, Sid>
    var byIP: map<string, Sid>
    var vpnIndex: map<string, User>
    var viaIndex: seq<Via>
    var accounts: map<Sid, Account>
    var nextSid: Sid
    var allowAllPeers: bool
    var policy: Policy
    var grace: int
    var onDisconnect: seq<Sid>     // sessions whose disconnect handler was called
    var onKick: seq<User>          // users whose kick handler was called
    var outbox: seq<Sent>          // packets accepted by a connection
    var tun: seq<seq<Byte>>        // packets written to the TUN

    function View(): State
      reads this
    {
      State(sessions, byIP, vpnIndex, viaIndex, accounts)
    }

    ghost predicate Valid()
      reads this
    {
      && (forall u :: u in sessions ==> sessions[u] in accounts && accounts[sessions[u]].user == u)
      && (forall ip :: ip in byIP ==> byIP[ip] in accounts)
      && (forall sid :: sid in accounts ==> sid < nextSid)
    }

    constructor ()
      ensures Valid() && View() == State(map[], map[], map[], [], map[]) && Indexed(View())
      ensures nextSid == 0 && policy == RejectSecond && grace == 0 && !allowAllPeers
      ensures onDisconnect == [] && onKick == [] && outbox == [] && tun == []
    {
      sessions, byIP, vpnIndex, viaIndex, accounts := map[], map[], map[], [], map[];
      nextSid, policy, grace, allowAllPeers := 0, RejectSecond, 0, false;
      onDisconnect, onKick, outbox, tun := [], [], [], [];
      new;
      assert Enumerates([], sessions.Keys);
    }

    // parseViaRoutes: one malformed destination fails the registration, and a
    // route without a via account is skipped.
    static method ParseViaRoutes(specs: seq<ViaSpec>) returns (r: Option<seq<Via>>)
      ensures r.None? <==> exists i :: 0 <= i < |specs| && specs[i].dest.None?
      ensures r.Some? ==> r.value == ViaList(specs)
      ensures r.Some? ==> forall v :: v in r.value <==> v.via > 0 && ViaSpec(Some(v.net), v.via) in specs
    {
      var out: seq<Via> := [];
      for i := 0 to |specs|
        invariant forall j :: 0 <= j < i ==> specs[j].dest.Some?
        invariant out == ViaList(specs[..i])
      {
        assert specs[..i + 1][..i] == specs[..i];
        if specs[i].dest.None? {
          return None;
        }
        if specs[i].via > 0 {
          out := out + [Via(specs[i].dest.value, specs[i].via)];
        }
      }
      assert specs[..|specs|] == specs;
      forall v ensures v in out <==> v.via > 0 && ViaSpec(Some(v.net), v.via) in specs {
        ViaListCounts(specs, v);
        assert v in out <==> v in multiset(out);
        assert ViaSpec(Some(v.net), v.via) in specs <==> ViaSpec(Some(v.net), v.via) in multiset(specs);
      }
      return Some(out);
    }

    method RebuildViaIndex()
      requires Valid()
      modifies this`viaIndex
      ensures Valid()
      ensures IsViaIndex(viaIndex, sessions, accounts)
    {
      var ids := OnlineIds();
      var idx: seq<Via> := [];
      for i := 0 to |ids|
        invariant idx == Gather(ids[..i], sessions, accounts)
      {
        assert ids[..i + 1][..i] == ids[..i];
        idx := idx + RoutesOf(sessions, accounts, ids[i]);
      }
      assert ids[..|ids|] == ids;
      SortedIsViaIndex(ids, sessions, accounts);
      viaIndex := Sorting.Sort(idx, ViaLe);
    }

    method OnlineIds() returns (ids: seq<User>)
      ensures Enumerates(ids, sessions.Keys)
    {
      ids := [];
      var todo := sessions.Keys;
      while todo != {}
        invariant todo <= sessions.Keys
        invariant Enumerates(ids, sessions.Keys - todo)
        decreases todo
      {
        Sorting.SomeMember(todo);
        var u :| u in todo;
        todo := todo - {u};
        ids := ids + [u];
      }
      var sorted := Sorting.Sort(ids, (i: User, j: User) => i <= j);
      Sorting.DistinctPermutes(ids, sorted);
      Sorting.MembersOfMultiset(ids, sorted);
      ids := sorted;
    }

    // RegisterVPN, first section: refuse, or take the old session out.
    method RegisterBegin(user: User, host: string, lastActivity: Option<int>, now: int) returns (r: Begun)
      requires Valid()
      modifies this`sessions, this`byIP, this`accounts
      ensures Valid() && nextSid == old(nextSid)
      ensures r.AlreadyOnline? <==>
        user in old(sessions) && !GivesWay(policy, grace, Current(old(View()), user).host, host, lastActivity, now)
      // Refused exactly when the user is online, and without a grace period, or
      // from another host while the peer is not known to be silent.
      ensures policy.KickPrevious? ==> r.Proceed?
      ensures policy.RejectSecond? && user in old(sessions) ==>
        var was := old(accounts)[old(sessions)[user]];
        (r.AlreadyOnline? <==>
          || grace <= 0
          || (&& (was.host != host || was.host == "")
              && (|| lastActivity.None?
                  || now - lastActivity.value < (if grace > 20_000_000_000 then 20_000_000_000
                                                 else if grace < 8_000_000_000 then 8_000_000_000
                                                 else grace))))
      ensures r.AlreadyOnline? || user !in old(sessions) ==> View() == old(View())
      ensures r.Proceed? && user in old(sessions) ==> View() == Detach(old(View()), user)
      ensures r.Proceed? ==> r.replaced == if user in old(sessions) then Some(old(sessions)[user]) else None
      ensures r.Proceed? && user in old(sessions) && policy.RejectSecond? ==>
                r.rx == Current(old(View()), user).rx && r.tx == Current(old(View()), user).tx
      ensures r.Proceed? && (user !in old(sessions) || policy.KickPrevious?) ==> r.rx == r.tx == 0
    {
      if user !in sessions {
        return Proceed(None, 0, 0);
      }
      var sid := sessions[user];
      var was := accounts[sid];
      var rx, tx := 0, 0;
      if policy.RejectSecond? {
        var sameHost := SameHost(was.host, host);
        var stalePeer := PeerStale(lastActivity, now, StaleAfter(grace));
        if !(grace > 0 && (sameHost || stalePeer)) {
          return AlreadyOnline;
        }
        rx, tx := was.rx, was.tx;
      }
      accounts := accounts[sid := was.(cipher := None)];
      sessions := sessions - {user};
      if was.vpnIP != "" {
        byIP := byIP - {was.vpnIP};
      }
      return Proceed(Some(sid), rx, tx);
    }

    // RegisterVPN, second section.
    method RegisterFinish(a: Account) returns (sid: Sid)
      requires Valid()
      modifies this`sessions, this`byIP, this`vpnIndex, this`viaIndex, this`accounts, this`nextSid
      ensures Valid()
      ensures sid == old(nextSid) && sid !in old(accounts)
      ensures View() == Attach(old(View()), sid, a, viaIndex) && Indexed(View())
    {
      sid := nextSid;
      nextSid := nextSid + 1;
      accounts := accounts[sid := a];
      sessions := sessions[a.user := sid];
      if a.vpnIP != "" {
        byIP := byIP[a.vpnIP := sid];
        vpnIndex := vpnIndex[a.vpnIP := a.user];
      }
      RebuildViaIndex();
    }

    // The part RemoveIfConn and KickUser share.
    method LeaveSection(user: User)
      requires Valid() && user in sessions
      modifies this`sessions, this`byIP, this`viaIndex
      ensures Valid()
      ensures View() == Leave(old(View()), user, viaIndex) && Indexed(View())
    {
      var was := accounts[sessions[user]];
      sessions := sessions - {user};
      if was.vpnIP != "" {
        byIP := byIP - {was.vpnIP};
      }
      RebuildViaIndex();
    }

    // Only the session still bound to this connection is removed.
    method RemoveIfConn(user: User, conn: Conn)
      requires Valid()
      modifies this`sessions, this`byIP, this`viaIndex, this`onDisconnect
      ensures Valid()
      ensures var s := old(View());
        if Registered(s, user) && Current(s, user).conn == conn
        then && View() == Leave(s, user, viaIndex) && Indexed(View())
             && onDisconnect == old(onDisconnect) + [s.sessions[user]]
        else View() == s && onDisconnect == old(onDisconnect)
    {
      if user !in sessions || accounts[sessions[user]].conn != conn {
        return;
      }
      var sid := sessions[user];
      LeaveSection(user);
      onDisconnect := onDisconnect + [sid];
    }

    // The session's connection, if there was one, is for the caller to close. The
    // kick handler runs whether or not the user was online.
    method KickUser(user: User) returns (conn: Option<Conn>)
      requires Valid()
      modifies this`sessions, this`byIP, this`viaIndex, this`onDisconnect, this`onKick
      ensures Valid() && onKick == old(onKick) + [user]
      ensures var s := old(View());
        if Registered(s, user)
        then && View() == Leave(s, user, viaIndex) && Indexed(View())
             && onDisconnect == old(onDisconnect) + [s.sessions[user]] && conn == Some(Current(s, user).conn)
        else View() == s && onDisconnect == old(onDisconnect) && conn == None
    {
      conn := None;
      if user in sessions {
        var sid := sessions[user];
        conn := Some(accounts[sid].conn);
        LeaveSection(user);
        onDisconnect := onDisconnect + [sid];
      }
      onKick := onKick + [user];
    }

    method RegisterVPNIP(vpnIP: string, user: User)
      requires Valid()
      modifies this`vpnIndex
      ensures Valid() && View() == old(View()).(vpnIndex := old(vpnIndex)[vpnIP := user])
    {
      vpnIndex := vpnIndex[vpnIP := user];
    }

    method UnregisterVPNIP(vpnIP: string)
      requires Valid()
      modifies this`vpnIndex
      ensures Valid() && View() == old(View()).(vpnIndex := old(vpnIndex) - {vpnIP})
    {
      vpnIndex := vpnIndex - {vpnIP};
    }

    // Returns the users that lost a route.
    method PruneViaRoutes(via: User, registry: set<string>) returns (affected: set<User>)
      requires Valid()
      modifies this`viaIndex, this`accounts
      ensures Valid()
      ensures via <= 0 ==> View() == old(View()) && affected == {}
      ensures via > 0 ==> View() == Pruned(old(View()), via, registry, viaIndex) && Indexed(View())
      ensures via > 0 ==> affected == Losers(old(View()), via, registry, sessions.Keys)
    {
      if via <= 0 {
        return {};
      }
      affected := PruneSessions(via, registry);
      RebuildViaIndex();
    }

    method PruneSessions(via: User, registry: set<string>) returns (affected: set<User>)
      requires Valid()
      modifies this`accounts
      ensures Valid()
      ensures accounts == PrunedAccounts(old(View()), via, registry, sessions.Keys)
      ensures affected == Losers(old(View()), via, registry, sessions.Keys)
    {
      affected := {};
      ghost var s := View();
      ghost var done: set<User> := {};
      var todo := sessions.Keys;
      assert PrunedAccounts(s, via, registry, {}) == accounts;
      while todo != {}
        invariant done + todo == s.sessions.Keys && done !! todo
        invariant accounts.Keys == s.accounts.Keys
        invariant accounts == PrunedAccounts(s, via, registry, done)
        invariant affected == Losers(s, via, registry, done)
        decreases todo
      {
        Sorting.SomeMember(todo);
        var u :| u in todo;
        todo := todo - {u};
        PruneOneMore(s, via, registry, done, u);
        LosersOneMore(s, via, registry, done, u);
        done := done + {u};
        var pruned := PruneSession(sessions[u], via, registry);
        if pruned {
          affected := affected + {u};
        }
      }
      assert done == s.sessions.Keys;
    }

    method PruneSession(sid: Sid, via: User, registry: set<string>) returns (pruned: bool)
      requires sid in accounts
      modifies this`accounts
      ensures var a := old(accounts)[sid];
        && accounts == old(accounts)[sid := a.(viaRoutes := KeptRoutes(a.viaRoutes, via, registry))]
        && (pruned <==> LosesRoute(a, via, registry))
    {
      var a := accounts[sid];
      var kept: seq<Via>;
      kept, pruned := FilterRoutes(a.viaRoutes, via, registry);
      if pruned {
        accounts := accounts[sid := a.(viaRoutes := kept)];
      } else {
        assert a.(viaRoutes := kept) == a;
      }
    }

    static method FilterRoutes(routes: seq<Via>, via: User, registry: set<string>)
        returns (kept: seq<Via>, pruned: bool)
      ensures kept == KeptRoutes(routes, via, registry)
      ensures pruned <==> exists v :: v in routes && !Keeps(v, via, registry)
      ensures !pruned ==> kept == routes
    {
      kept, pruned := [], false;
      for i := 0 to |routes|
        invariant kept == KeptRoutes(routes[..i], via, registry)
        invariant pruned <==> exists v :: v in routes[..i] && !Keeps(v, via, registry)
        invariant !pruned ==> kept == routes[..i]
      {
        OneRouteMore(routes, i, via, registry);
        if Keeps(routes[i], via, registry) {
          kept := kept + [routes[i]];
        } else {
          pruned := true;
        }
      }
      assert routes[..|routes|] == routes;
    }

    // Nothing is sent, and no packet number used, for a session that has been
    // replaced or removed, however the caller came by it.
    method SendToAccount(sid: Sid, plain: seq<Byte>, connAccepts: bool) returns (ok: bool)
      requires Valid() && sid in accounts
      modifies this`accounts, this`outbox
      ensures Valid()
      ensures ok <==> MaySend(old(View()), sid) && connAccepts
      ensures ok <==> && old(accounts)[sid].cipher.Some? && old(accounts)[sid].user in sessions
                      && sessions[old(accounts)[sid].user] == sid && connAccepts
      ensures View() == Transmitted(old(View()), sid, |plain|, connAccepts)
      ensures outbox == if ok then old(outbox) + [Sent(sid, old(accounts)[sid].conn, plain)] else old(outbox)
    {
      var a := accounts[sid];
      if a.cipher.None? {
        return false;
      }
      if a.user !in sessions || sessions[a.user] != sid {
        return false;
      }
      accounts := accounts[sid := AfterSend(a, |plain|, connAccepts)];
      if !connAccepts {
        return false;
      }
      outbox := outbox + [Sent(sid, a.conn, plain)];
      return true;
    }

    method RouteOutbound(packet: seq<Byte>, connAccepts: bool) returns (ok: bool)
      requires Valid()
      modifies this`accounts, this`outbox
      ensures Valid()
      ensures |packet| < 20 || RouteTarget(old(View()), FlowTable.WordAt(packet, 16)).None? ==>
                !ok && View() == old(View()) && outbox == old(outbox)
      ensures |packet| >= 20 && RouteTarget(old(View()), FlowTable.WordAt(packet, 16)).Some? ==>
        var sid := RouteTarget(old(View()), FlowTable.WordAt(packet, 16)).value;
        && sid in old(accounts)
        && View() == Transmitted(old(View()), sid, |packet|, connAccepts)
        && ok == (MaySend(old(View()), sid) && connAccepts)
        && outbox == if ok then old(outbox) + [Sent(sid, old(accounts)[sid].conn, packet)] else old(outbox)
    {
      if |packet| < 20 {
        return false;
      }
      var dst := FlowTable.WordAt(packet, 16);
      var target := RouteTarget(View(), dst);
      if target.None? {
        return false;
      }
      if Addresses.Dotted(dst) !in byIP {
        FirstOnlineViaIsARoute(viaIndex, View(), dst);
      }
      ok := SendToAccount(target.value, packet, connAccepts);
    }

    // One frame from a connection, handled without interference.
    method HandleInbound(user: User, conn: Conn, data: seq<Byte>, connAccepts: bool, tunAccepts: bool)
        returns (r: Result<Option<Verdict>, TunnelSession.Failure>)
      requires Valid()
      modifies this`accounts, this`outbox, this`tun
      ensures Valid()
      ensures var s := old(View());
        if !(Registered(s, user) && Current(s, user).conn == conn && Current(s, user).cipher.Some?) then
          r == Ok(None) && View() == s && outbox == old(outbox) && tun == old(tun)
        else
          var a := Current(s, user);
          var cipher := a.cipher.value;
          var (window, opening) := TunnelSession.Receive(cipher.tunnel, cipher.window, data);
          match opening
          case Err(e) => r == Err(e) && View() == s && outbox == old(outbox) && tun == old(tun)
          case Ok(plain) =>
            var verdict := Decide(a, plain, At(s, allowAllPeers));
            && r == Ok(Some(verdict))
            && View() == Handled(s, user, window, verdict, |plain|, connAccepts)
            && tun == (if verdict.ToTUN? && tunAccepts then old(tun) + [plain] else old(tun))
            && (verdict.ToPeer? ==> verdict.sid in s.accounts)
            && outbox == (if verdict.ToPeer? && MaySend(s, verdict.sid) && connAccepts
                          then old(outbox) + [Sent(verdict.sid, s.accounts[verdict.sid].conn, plain)]
                          else old(outbox))
    {
      if user !in sessions {
        return Ok(None);
      }
      var sid := sessions[user];
      var a := accounts[sid];
      if a.cipher.None? || a.conn != conn {
        return Ok(None);
      }
      ghost var s := View();
      var cipher := a.cipher.value;
      var (window, opening) := TunnelSession.Receive(cipher.tunnel, cipher.window, data);
      if opening.Err? {
        assert cipher.(window := window) == cipher;
        return Err(opening.error);
      }
      var verdict := HandlePacket(user, window, opening.value, connAccepts, tunAccepts);
      return Ok(Some(verdict));
    }

    // What follows once a frame has been opened.
    method HandlePacket(user: User, window: ReplayWindow.Window, plain: seq<Byte>, connAccepts: bool, tunAccepts: bool)
        returns (verdict: Verdict)
      requires Valid() && Registered(View(), user) && Current(View(), user).cipher.Some?
      modifies this`accounts, this`outbox, this`tun
      ensures Valid()
      ensures var s := old(View());
        var a := Current(s, user);
        && verdict == Decide(a, plain, At(s, allowAllPeers))
        && View() == Handled(s, user, window, verdict, |plain|, connAccepts)
        && tun == (if verdict.ToTUN? && tunAccepts then old(tun) + [plain] else old(tun))
        && (verdict.ToPeer? ==> verdict.sid in s.accounts)
        && outbox == (if verdict.ToPeer? && MaySend(s, verdict.sid) && connAccepts
                      then old(outbox) + [Sent(verdict.sid, s.accounts[verdict.sid].conn, plain)]
                      else old(outbox))
    {
      ghost var s := View();
      var sid := sessions[user];
      var a := accounts[sid];
      verdict := Decide(a, plain, At(View(), allowAllPeers));
      VerdictTarget(s, a, plain, allowAllPeers);
      accounts := accounts[sid := AfterInbound(a, a.cipher.value, window, verdict, |plain|)];
      SamePermissions(s, View(), verdict);
      Deliver(verdict, plain, connAccepts, tunAccepts);
    }

    method Deliver(verdict: Verdict, plain: seq<Byte>, connAccepts: bool, tunAccepts: bool)
      requires Valid() && (verdict.ToPeer? ==> verdict.sid in accounts)
      modifies this`accounts, this`outbox, this`tun
      ensures Valid()
      ensures tun == if verdict.ToTUN? && tunAccepts then old(tun) + [plain] else old(tun)
      ensures outbox == if verdict.ToPeer? && MaySend(old(View()), verdict.sid) && connAccepts
                        then old(outbox) + [Sent(verdict.sid, old(accounts)[verdict.sid].conn, plain)]
                        else old(outbox)
      ensures View() == if verdict.ToPeer? then Transmitted(old(View()), verdict.sid, |plain|, connAccepts)
          else old(View())
    {
      if verdict.ToPeer? {
        var _ := SendToAccount(verdict.sid, plain, connAccepts);
      } else if verdict.ToTUN? && tunAccepts {
        tun := tun + [plain];
      }
    }
  }

  // Counting a packet changes nobody's right to be sent to.
  lemma SamePermissions(s: State, t: State, verdict: Verdict)
    requires t.sessions == s.sessions && t.accounts.Keys == s.accounts.Keys
    requires forall sid :: sid in s.accounts ==>
      && t.accounts[sid].user == s.accounts[sid].user
      && t.accounts[sid].conn == s.accounts[sid].conn
      && t.accounts[sid].cipher.Some? == s.accounts[sid].cipher.Some?
    requires verdict.ToPeer? ==> verdict.sid in s.accounts
    ensures verdict.ToPeer? ==>
      && (MaySend(t, verdict.sid) <==> MaySend(s, verdict.sid))
      && t.accounts[verdict.sid].conn == s.accounts[verdict.sid].conn
  {
  }

  // A verdict only ever names a session the manager knows.
  lemma VerdictTarget(s: State, a: Account, plain: seq<Byte>, allowAll: bool)
    requires forall u :: u in s.sessions ==> s.sessions[u] in s.accounts
    requires forall ip :: ip in s.byIP ==> s.byIP[ip] in s.accounts
    ensures Decide(a, plain, At(s, allowAll)).ToPeer? ==> Decide(a, plain, At(s, allowAll)).sid in s.accounts
  {
    if IsIPv4(plain) && FirstOnlineVia(a.viaRoutes, s, Dst(plain)).Some? {
      FirstOnlineViaIsARoute(a.viaRoutes, s, Dst(plain));
    }
  }
}
