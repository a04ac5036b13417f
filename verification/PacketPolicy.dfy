// Who may reach whom: the decision HandleInbound takes for one decrypted
// packet. Each question it asks takes the manager's lock anew, so each may be
// answered by a different state; `Reads` names those states.
module PacketPolicy {
  import opened Addresses
  import opened Bytes
  import FlowTable
  import opened SessionState
  import Sorting
  import opened Wrappers

  predicate IPInAnyNet(nets: seq<Prefix>, a: Word) {
    exists i :: 0 <= i < |nets| && nets[i].Contains(a)
  }

  predicate VPNIPOrInNets(vpnIP: string, nets: seq<Prefix>, a: Word) {
    (vpnIP != "" && Dotted(a) == vpnIP) || IPInAnyNet(nets, a)
  }

  // Own VPN address, or the return path of a LAN this account exports.
  predicate SourceAllowed(a: Account, src: Word) {
    VPNIPOrInNets(a.vpnIP, a.exitLANs, src)
  }

  predicate DstAllowed(a: Account, dst: Word) {
    VPNIPOrInNets(a.vpnIP, a.allowed, dst)
  }

  predicate IsOtherAccountVPNIP(s: State, from: User, dst: string) {
    dst in s.vpnIndex && s.vpnIndex[dst] != from
  }

  predicate LateralPeerAllowed(s: State, allowAll: bool, a: Account, dst: string) {
    dst in s.vpnIndex && (allowAll || s.vpnIndex[dst] in a.peerAccess || s.vpnIndex[dst] in a.viaPeers)
  }

  function LookupOnlineByVPNIP(s: State, ip: string): Option<Sid> {
    if ip != "" && ip in s.byIP then Some(s.byIP[ip]) else None
  }

  predicate SessionIsActiveVia(s: State, u: User) {
    u > 0 && exists i :: 0 <= i < |s.viaIndex| && s.viaIndex[i].via == u
  }

  // The first route that covers dst and whose via is online.
  function FirstOnlineVia(routes: seq<Via>, s: State, dst: Word): Option<Sid> {
    if routes == [] then None
    else if routes[0].net.Contains(dst) && routes[0].via in s.sessions then Some(s.sessions[routes[0].via])
    else FirstOnlineVia(routes[1..], s, dst)
  }

  // RouteOutbound's choice: the owner of the address, else the first via.
  function RouteTarget(s: State, dst: Word): Option<Sid> {
    if Dotted(dst) in s.byIP then Some(s.byIP[Dotted(dst)])
    else FirstOnlineVia(s.viaIndex, s, dst)
  }

  datatype Verdict =
    | Drop               // too short, not IPv4, forged source, or blocked peer
    | Overreach          // destination outside the policy
    | ToPeer(sid: Sid)
    | PeerOffline
    | ToTUN

  // Packets that pass the checks are counted as received.
  predicate Counted(v: Verdict) {
    v.ToPeer? || v.PeerOffline? || v.ToTUN?
  }

  datatype Reads = Reads(
    activeVia: State, returnPeer: State, other: State, lateral: State, allowAll: bool, peer: State, route: State)

  function At(s: State, allowAll: bool): Reads {
    Reads(s, s, s, s, allowAll, s, s)
  }

  predicate IsIPv4(plain: seq<Byte>) {
    |plain| >= 20 && plain[0] / 16 == 4
  }

  function Src(plain: seq<Byte>): Word
    requires IsIPv4(plain)
  {
    FlowTable.WordAt(plain, 12)
  }

  function Dst(plain: seq<Byte>): Word
    requires IsIPv4(plain)
  {
    FlowTable.WordAt(plain, 16)
  }

  // The peer that an exported LAN's answer goes to without further questions.
  function ReturnPeer(a: Account, src: Word, dst: Word, r: Reads): Option<Sid> {
    if IPInAnyNet(a.exitLANs, src) && SessionIsActiveVia(r.activeVia, a.user) then
      match LookupOnlineByVPNIP(r.returnPeer, Dotted(dst))
      case Some(sid) =>
        if sid in r.returnPeer.accounts && r.returnPeer.accounts[sid].user != a.user then Some(sid) else None
      case None => None
    else None
  }

  function Decide(a: Account, plain: seq<Byte>, r: Reads): Verdict {
    if !IsIPv4(plain) then Drop
    else
      var src, dst := Src(plain), Dst(plain);
      var returnPeer := ReturnPeer(a, src, dst, r);
      var lateral := IsOtherAccountVPNIP(r.other, a.user, Dotted(dst));
      if !SourceAllowed(a, src) then Drop
      else if returnPeer.Some? then ToPeer(returnPeer.value)
      else if lateral && !LateralPeerAllowed(r.lateral, r.allowAll, a, Dotted(dst)) then Drop
      else if !DstAllowed(a, dst) then Overreach
      else if lateral then
        match LookupOnlineByVPNIP(r.peer, Dotted(dst))
        case Some(sid) => ToPeer(sid)
        case None => PeerOffline
      else match FirstOnlineVia(a.viaRoutes, r.route, dst)
        case Some(sid) => ToPeer(sid)
        case None => ToTUN
  }

  // ----- the verdicts, in terms of the packet and the tables -----

  // The addresses are the header's bytes 12 to 15 and 16 to 19.
  lemma AddressBytes(plain: seq<Byte>)
    requires |plain| >= 20 && plain[0] / 16 == 4
    ensures Src(plain) == 0x100_0000 * (plain[12] as int) + 0x1_0000 * (plain[13] as int)
                        + 0x100 * (plain[14] as int) + plain[15]
    ensures Dst(plain) == 0x100_0000 * (plain[16] as int) + 0x1_0000 * (plain[17] as int)
                        + 0x100 * (plain[18] as int) + plain[19]
  {
    FourBytes(plain[12..16]);
    FourBytes(plain[16..20]);
  }

  // An answer out of a LAN that a exports, while some managed route runs through
  // a, for the address of the session sid of another user.
  ghost predicate Answers(a: Account, src: Word, dst: Word, r: Reads, sid: Sid) {
    && (exists i :: 0 <= i < |a.exitLANs| && a.exitLANs[i].Contains(src))
    && a.user > 0
    && (exists i :: 0 <= i < |r.activeVia.viaIndex| && r.activeVia.viaIndex[i].via == a.user)
    && Dotted(dst) in r.returnPeer.byIP && r.returnPeer.byIP[Dotted(dst)] == sid
    && sid in r.returnPeer.accounts && r.returnPeer.accounts[sid].user != a.user
  }

  // Such an answer is always delivered, whatever has been granted and whatever
  // destinations the policy allows.
  lemma AnswerIsDelivered(a: Account, plain: seq<Byte>, r: Reads, sid: Sid)
    requires |plain| >= 20 && plain[0] / 16 == 4
    requires Answers(a, Src(plain), Dst(plain), r, sid)
    ensures Decide(a, plain, r) == ToPeer(sid)
  {
    AnswerIsReturnPeer(a, Src(plain), Dst(plain), r);
  }

  lemma AnswerIsReturnPeer(a: Account, src: Word, dst: Word, r: Reads)
    ensures forall sid: Sid :: Answers(a, src, dst, r, sid) <==> ReturnPeer(a, src, dst, r) == Some(sid)
  {
    assert Dotted(dst) != "";
  }

  // Dropped at once: no IPv4, a source that is neither the account's address nor
  // in a LAN it exports, or another account's address without any right to it.
  lemma DropExactly(a: Account, plain: seq<Byte>, r: Reads)
    ensures Decide(a, plain, r) == Drop <==>
      || |plain| < 20
      || plain[0] / 16 != 4
      || (&& !(a.vpnIP != "" && Dotted(Src(plain)) == a.vpnIP)
          && forall i :: 0 <= i < |a.exitLANs| ==> !a.exitLANs[i].Contains(Src(plain)))
      || var dst := Dotted(Dst(plain));
         && (forall sid :: !Answers(a, Src(plain), Dst(plain), r, sid))
         && dst in r.other.vpnIndex && r.other.vpnIndex[dst] != a.user
         && (dst in r.lateral.vpnIndex ==>
               !r.allowAll && r.lateral.vpnIndex[dst] !in a.peerAccess && r.lateral.vpnIndex[dst] !in a.viaPeers)
  {
    if |plain| >= 20 && plain[0] / 16 == 4 {
      AnswerIsReturnPeer(a, Src(plain), Dst(plain), r);
    }
  }

  // Outside the policy: nothing dropped so far, no answer, and a destination that
  // is neither the account's own address nor in its allowed networks.
  lemma OverreachExactly(a: Account, plain: seq<Byte>, r: Reads)
    ensures Decide(a, plain, r) == Overreach <==>
      && Decide(a, plain, r) != Drop
      && (forall sid :: !Answers(a, Src(plain), Dst(plain), r, sid))
      && !(a.vpnIP != "" && Dotted(Dst(plain)) == a.vpnIP)
      && forall i :: 0 <= i < |a.allowed| ==> !a.allowed[i].Contains(Dst(plain))
  {
    if IsIPv4(plain) {
      AnswerIsReturnPeer(a, Src(plain), Dst(plain), r);
    }
  }

  // ----- isolation -----

  // Nothing in the account's own policy lets it at peer b.
  predicate Unrelated(a: Account, b: User) {
    b !in a.peerAccess && b !in a.viaPeers
  }

  // An account with no grant towards b, and no via itself, gets nothing through
  // to b's VPN address: not to a session and not to the TUN, even if the state
  // changes between any two of the questions.
  lemma StrangerIsBlocked(a: Account, b: User, plain: seq<Byte>, r: Reads)
    requires IsIPv4(plain) && Unrelated(a, b) && b != a.user && !r.allowAll
    requires !SessionIsActiveVia(r.activeVia, a.user)
    requires Dotted(Dst(plain)) in r.other.vpnIndex && r.other.vpnIndex[Dotted(Dst(plain))] == b
    requires Dotted(Dst(plain)) in r.lateral.vpnIndex && r.lateral.vpnIndex[Dotted(Dst(plain))] == b
    ensures Decide(a, plain, r) == Drop
  {
  }

  // And those grants are the only thing in the way: a packet with a permitted
  // source for b's VPN address is dropped exactly when none of them applies.
  lemma BlockedExactly(a: Account, b: User, plain: seq<Byte>, s: State, allowAll: bool)
    requires IsIPv4(plain) && b != a.user && SourceAllowed(a, Src(plain))
    requires Dotted(Dst(plain)) in s.vpnIndex && s.vpnIndex[Dotted(Dst(plain))] == b
    ensures Decide(a, plain, At(s, allowAll)) == Drop <==>
      && !allowAll
      && b !in a.peerAccess && b !in a.viaPeers
      && forall sid :: !Answers(a, Src(plain), Dst(plain), At(s, allowAll), sid)
  {
    AnswerIsReturnPeer(a, Src(plain), Dst(plain), At(s, allowAll));
  }

  ghost predicate HasRouteVia(a: Account, b: User, dst: Word) {
    exists i :: 0 <= i < |a.viaRoutes| && a.viaRoutes[i].via == b && a.viaRoutes[i].net.Contains(dst)
  }

  predicate Serves(v: Via, s: State, dst: Word) {
    v.net.Contains(dst) && v.via in s.sessions
  }

  ghost predicate IsFirst(routes: seq<Via>, s: State, dst: Word, i: int) {
    0 <= i < |routes| && Serves(routes[i], s, dst) && forall j :: 0 <= j < i ==> !Serves(routes[j], s, dst)
  }

  // The via chosen is that of the first route that covers dst and is online.
  lemma {:induction false} FirstOnlineViaIsARoute(routes: seq<Via>, s: State, dst: Word)
    requires FirstOnlineVia(routes, s, dst).Some?
    ensures exists i :: IsFirst(routes, s, dst, i) && s.sessions[routes[i].via] == FirstOnlineVia(routes, s, dst).value
  {
    if Serves(routes[0], s, dst) {
      assert IsFirst(routes, s, dst, 0);
    } else {
      FirstOnlineViaIsARoute(routes[1..], s, dst);
      var i :| IsFirst(routes[1..], s, dst, i)
               && s.sessions[routes[1..][i].via] == FirstOnlineVia(routes, s, dst).value;
      forall j | 0 <= j < i + 1 ensures !Serves(routes[j], s, dst) {
        assert j > 0 ==> routes[j] == routes[1..][j - 1];
      }
      assert IsFirst(routes, s, dst, i + 1);
    }
  }

  // The indexes agree: online sessions are filed under their user, byIP under
  // their address, and vpnIndex names the same owner.
  ghost predicate Coherent(s: State) {
    && (forall u :: u in s.sessions ==> s.sessions[u] in s.accounts && s.accounts[s.sessions[u]].user == u)
    && (forall ip :: ip in s.byIP ==>
          s.byIP[ip] in s.accounts && ip in s.vpnIndex && s.vpnIndex[ip] == s.accounts[s.byIP[ip]].user)
  }

  // Every way a packet from a can end at a session of another user b: global
  // peering, a grant, a managed route through b for that destination, or a
  // exporting a LAN while somebody's managed route runs through it.
  lemma ReachesPeerOnlyIf(a: Account, plain: seq<Byte>, s: State, allowAll: bool, sid: Sid)
    requires Coherent(s)
    requires Decide(a, plain, At(s, allowAll)) == ToPeer(sid)
    ensures IsIPv4(plain) && SourceAllowed(a, Src(plain))
    ensures sid in s.accounts
    ensures var b := s.accounts[sid].user;
      || (allowAll && Dotted(Dst(plain)) in s.byIP)
      || b in a.peerAccess
      || b in a.viaPeers
      || HasRouteVia(a, b, Dst(plain))
      || (SessionIsActiveVia(s, a.user) && IPInAnyNet(a.exitLANs, Src(plain)) && b != a.user)
    ensures (forall t :: !Answers(a, Src(plain), Dst(plain), At(s, allowAll), t)) ==> DstAllowed(a, Dst(plain))
  {
    var dst := Dst(plain);
    AnswerIsReturnPeer(a, Src(plain), dst, At(s, allowAll));
    if ReturnPeer(a, Src(plain), dst, At(s, allowAll)).None? && !IsOtherAccountVPNIP(s, a.user, Dotted(dst)) {
      FirstOnlineViaIsARoute(a.viaRoutes, s, dst);
    }
  }

  // And with a grant a permitted packet does arrive at the peer that is online.
  lemma GrantedIsDelivered(a: Account, plain: seq<Byte>, s: State, allowAll: bool)
    requires Coherent(s) && IsIPv4(plain) && SourceAllowed(a, Src(plain)) && DstAllowed(a, Dst(plain))
    requires Dotted(Dst(plain)) in s.byIP
    requires var b := s.accounts[s.byIP[Dotted(Dst(plain))]].user;
             b != a.user && (allowAll || !Unrelated(a, b))
    ensures Decide(a, plain, At(s, allowAll)) == ToPeer(s.byIP[Dotted(Dst(plain))])
  {
    assert Dotted(Dst(plain)) != "";
  }

  lemma {:induction false} FirstIsChosen(routes: seq<Via>, s: State, dst: Word, i: int)
    requires IsFirst(routes, s, dst, i)
    ensures FirstOnlineVia(routes, s, dst) == Some(s.sessions[routes[i].via])
  {
    if i > 0 {
      assert !Serves(routes[0], s, dst);
      assert forall j :: 0 <= j < |routes| - 1 ==> routes[1..][j] == routes[j + 1];
      FirstIsChosen(routes[1..], s, dst, i - 1);
    }
  }

  // The path along a managed route: for a destination that is no other account's
  // address, and no answer to a peer, the packet goes to the via exactly when
  // source and destination are permitted and that via's is the first route that
  // covers the destination and is online. Nothing else is asked.
  lemma GoesToViaExactly(a: Account, plain: seq<Byte>, r: Reads, sid: Sid)
    requires IsIPv4(plain) && !IsOtherAccountVPNIP(r.other, a.user, Dotted(Dst(plain)))
    requires forall t :: !Answers(a, Src(plain), Dst(plain), r, t)
    ensures Decide(a, plain, r) == ToPeer(sid) <==>
      && SourceAllowed(a, Src(plain)) && DstAllowed(a, Dst(plain))
      && exists i :: IsFirst(a.viaRoutes, r.route, Dst(plain), i) && r.route.sessions[a.viaRoutes[i].via] == sid
  {
    AnswerIsReturnPeer(a, Src(plain), Dst(plain), r);
    if FirstOnlineVia(a.viaRoutes, r.route, Dst(plain)).Some? {
      FirstOnlineViaIsARoute(a.viaRoutes, r.route, Dst(plain));
    }
    if i :| IsFirst(a.viaRoutes, r.route, Dst(plain), i) && r.route.sessions[a.viaRoutes[i].via] == sid {
      FirstIsChosen(a.viaRoutes, r.route, Dst(plain), i);
    }
  }

  // In particular no peer access: a sender that has been given none, to anybody,
  // reaches the via's session.
  lemma ViaNeedsNoPeerAccess() returns (a: Account, s: State, plain: seq<Byte>)
    ensures a.peerAccess == {} && a.viaPeers == {} && s.sessions == map[2 := 7]
    ensures Decide(a, plain, At(s, false)) == ToPeer(7)
  {
    plain := [0x45] + seq(19, _ => 0);
    var src, dst := Src(plain), Dst(plain);
    var net := Masked(dst, 32);
    assert net.Contains(dst);
    a := Account(1, Dotted(src), [net], [Via(net, 2)], {}, {}, [], 0, None, "", 0, 0, 0);
    s := State(map[2 := 7], map[], map[], [Via(net, 2)], map[]);
    assert IPInAnyNet(a.allowed, dst) by {
      assert a.allowed[0].Contains(dst);
    }
    assert Dotted(src) != "";
    assert Serves(a.viaRoutes[0], s, dst);
    assert IsFirst(a.viaRoutes, s, dst, 0);
    GoesToViaExactly(a, plain, At(s, false), 7);
  }

  // What reaches the TUN is exactly: permitted source, inside the policy, no
  // other account's address, no answer to a peer, and no online via serves it.
  lemma ReachesTUNExactly(a: Account, plain: seq<Byte>, r: Reads)
    ensures Decide(a, plain, r).ToTUN? <==>
      && IsIPv4(plain) && SourceAllowed(a, Src(plain)) && DstAllowed(a, Dst(plain))
      && !IsOtherAccountVPNIP(r.other, a.user, Dotted(Dst(plain)))
      && (forall sid :: !Answers(a, Src(plain), Dst(plain), r, sid))
      && forall i :: 0 <= i < |a.viaRoutes| ==> !Serves(a.viaRoutes[i], r.route, Dst(plain))
  {
    if IsIPv4(plain) {
      NoOnlineVia(a.viaRoutes, r.route, Dst(plain));
      AnswerIsReturnPeer(a, Src(plain), Dst(plain), r);
    }
  }

  lemma {:induction false} NoOnlineVia(routes: seq<Via>, s: State, dst: Word)
    ensures FirstOnlineVia(routes, s, dst).None? <==> forall i :: 0 <= i < |routes| ==> !Serves(routes[i], s, dst)
  {
    if routes != [] {
      NoOnlineVia(routes[1..], s, dst);
      forall i | 0 < i < |routes| ensures routes[i] == routes[1..][i - 1] {
      }
      assert (forall i :: 0 <= i < |routes| ==> !Serves(routes[i], s, dst)) <==>
        !Serves(routes[0], s, dst) && forall i :: 0 <= i < |routes| - 1 ==> !Serves(routes[1..][i], s, dst);
    }
  }

  // Outbound routing depends on nothing but the online sessions: two states with
  // the same sessions, accounts and addresses send to the same account.
  lemma RouteTargetDeterministic(s: State, t: State, dst: Word)
    requires Indexed(s) && Indexed(t)
    requires s.sessions == t.sessions && s.accounts == t.accounts && s.byIP == t.byIP
    ensures RouteTarget(s, dst) == RouteTarget(t, dst)
  {
    ViaIndexUnique(s.viaIndex, t.viaIndex, s.sessions, s.accounts);
    assert s.viaIndex == t.viaIndex;
    SameSessionsSameVia(s.viaIndex, s, t, dst);
  }

  lemma {:induction false} SameSessionsSameVia(routes: seq<Via>, s: State, t: State, dst: Word)
    requires s.sessions == t.sessions
    ensures FirstOnlineVia(routes, s, dst) == FirstOnlineVia(routes, t, dst)
  {
    if routes != [] {
      SameSessionsSameVia(routes[1..], s, t, dst);
    }
  }

  // Some online session installed the route.
  ghost predicate Installed(s: State, v: Via) {
    exists u :: u in s.sessions && v in RoutesOf(s.sessions, s.accounts, u)
  }

  // v comes before any other installed route that covers dst and has its via
  // online: a smaller printed network, or the same one and a smaller account.
  ghost predicate ComesFirst(s: State, dst: Word, v: Via) {
    && Installed(s, v) && Serves(v, s, dst)
    && forall w :: Installed(s, w) && Serves(w, s, dst) ==>
         || (v.net.Text() == w.net.Text() && v.via <= w.via)
         || (v.net.Text() != w.net.Text() && TextLe(v.net.Text(), w.net.Text()))
  }

  // A packet goes to the owner of the address. With the index in place, one for
  // an address nobody owns goes to the via of the route that comes first, and
  // nowhere only if no route serves it.
  lemma LeastRouteIsChosen(s: State, dst: Word)
    requires Indexed(s)
    ensures Dotted(dst) in s.byIP ==> RouteTarget(s, dst) == Some(s.byIP[Dotted(dst)])
    ensures RouteTarget(s, dst).None? ==> forall v :: Installed(s, v) ==> !Serves(v, s, dst)
    ensures Dotted(dst) !in s.byIP && RouteTarget(s, dst).Some? ==>
      exists v :: ComesFirst(s, dst, v) && v.via in s.sessions && RouteTarget(s, dst) == Some(s.sessions[v.via])
  {
    InstalledIsIndexed(s);
    NoOnlineVia(s.viaIndex, s, dst);
    if Dotted(dst) !in s.byIP && RouteTarget(s, dst).Some? {
      FirstOnlineViaIsARoute(s.viaIndex, s, dst);
      var i :| IsFirst(s.viaIndex, s, dst, i) && s.sessions[s.viaIndex[i].via] == RouteTarget(s, dst).value;
      FirstComesFirst(s, dst, i);
    }
  }

  lemma InstalledIsIndexed(s: State)
    requires Indexed(s)
    ensures forall v :: Installed(s, v) <==> v in s.viaIndex
  {
    forall v ensures Installed(s, v) <==> v in s.viaIndex {
      ViaIndexMembers(s.viaIndex, s.sessions, s.accounts, v);
    }
  }

  lemma FirstComesFirst(s: State, dst: Word, i: nat)
    requires Indexed(s) && IsFirst(s.viaIndex, s, dst, i)
    ensures ComesFirst(s, dst, s.viaIndex[i])
  {
    InstalledIsIndexed(s);
    var v := s.viaIndex[i];
    forall w | Installed(s, w) && Serves(w, s, dst) ensures ViaLe(v, w) {
      FirstIsLeast(s.viaIndex, s, dst, i, w);
    }
  }

  lemma FirstIsLeast(idx: seq<Via>, s: State, dst: Word, i: nat, w: Via)
    requires Sorting.Sorted(idx, ViaLe) && IsFirst(idx, s, dst, i) && w in idx && Serves(w, s, dst)
    ensures ViaLe(idx[i], w)
  {
    var j :| 0 <= j < |idx| && idx[j] == w;
    if j == i {
      ViaLeTotalOrder();
    }
  }
}
