// What the session manager keeps: who is online, and the three indexes derived
// from it. A reference to an AccountSession is modelled by a number that is
// never reused; the table `accounts` holds what it refers to.
module SessionState {
  import opened Addresses
  import ReplayWindow
  import opened Sorting
  import TunnelSession
  import opened Wrappers

  type User = int
  type Sid = nat
  type Conn = nat

  // A managed route: traffic for net goes to the account via.
  datatype Via = Via(net: Prefix, via: User)

  // One account's cipher: the replay window inbound, the counter outbound.
  datatype RawCipher = Cipher(tunnel: TunnelSession.Tunnel, window: ReplayWindow.Window, sent: nat)
  type Cipher = c: RawCipher | c.tunnel.shape.Valid()
    witness RawCipher.Cipher(TunnelSession.Tunnel(TunnelSession.Aead(0, (_, p) => p, (_, _) => None),
        ReplayWindow.Shape(1, 2)), ReplayWindow.FRESH, 0)

  datatype Account = Account(
    user: User,
    vpnIP: string,
    allowed: seq<Prefix>,
    viaRoutes: seq<Via>,
    peerAccess: set<User>,
    viaPeers: set<User>,
    exitLANs: seq<Prefix>,
    conn: Conn,
    cipher: Option<Cipher>,
    host: string,
    rx: int,
    tx: int,
    dstDrops: nat)

  datatype State = State(
    sessions: map<User, Sid>,
    byIP: map<string, Sid>,
    vpnIndex: map<string, User>,
    viaIndex: seq<Via>,
    accounts: map<Sid, Account>)

  // ----- the via index -----

  // rebuildViaIndexLocked compares printed networks first, then the via account.
  predicate ViaLe(a: Via, b: Via) {
    if a.net.Text() != b.net.Text() then PrefixLe(a.net, b.net) else a.via <= b.via
  }

  lemma ViaLeTotalOrder()
    ensures TotalOrder(ViaLe)
  {
    PrefixLeTotalOrder();
    forall a: Via, b: Via | ViaLe(a, b) && ViaLe(b, a) ensures a == b {
      assert a.net == b.net by {
        if a.net.Text() != b.net.Text() {
          assert PrefixLe(a.net, b.net) && PrefixLe(b.net, a.net);
        } else {
          TextInjective(a.net, b.net);
        }
      }
    }
    forall a: Via, b: Via, c: Via | ViaLe(a, b) && ViaLe(b, c) ensures ViaLe(a, c) {
      ViaLeTransitive(a, b, c);
    }
  }

  lemma ViaLeTransitive(a: Via, b: Via, c: Via)
    requires ViaLe(a, b) && ViaLe(b, c)
    ensures ViaLe(a, c)
  {
    PrefixLeTotalOrder();
    if a.net.Text() != b.net.Text() && b.net.Text() != c.net.Text() {
      assert PrefixLe(a.net, c.net);
      if a.net.Text() == c.net.Text() {
        assert PrefixLe(b.net, a.net);
        TextInjective(a.net, b.net);
      }
    }
  }

  function RoutesOf(sessions: map<User, Sid>, accounts: map<Sid, Account>, u: User): seq<Via> {
    if u in sessions && sessions[u] in accounts then accounts[sessions[u]].viaRoutes else []
  }

  function Gather(ids: seq<User>, sessions: map<User, Sid>, accounts: map<Sid, Account>): seq<Via> {
    if ids == [] then []
    else Gather(ids[..|ids| - 1], sessions, accounts) + RoutesOf(sessions, accounts, ids[|ids| - 1])
  }

  // An order in which a Go map of these keys may be walked.
  ghost predicate Enumerates(ids: seq<User>, keys: set<User>) {
    Distinct(ids) && forall u :: u in ids <==> u in keys
  }

  // The index is a sorted listing of all online sessions' routes, each as often
  // as it occurs.
  ghost predicate IsViaIndex(idx: seq<Via>, sessions: map<User, Sid>, accounts: map<Sid, Account>) {
    && Sorted(idx, ViaLe)
    && exists ids :: Enumerates(ids, sessions.Keys) && multiset(idx) == multiset(Gather(ids, sessions, accounts))
  }

  // The order spelled out: printed networks by their first differing character,
  // and equal networks by the number of the account.
  lemma ViaOrder(a: Via, b: Via)
    ensures ViaLe(a, b) <==>
      var x, y := a.net.Text(), b.net.Text();
      || (x == y && a.via <= b.via)
      || (x != y && (x <= y || exists i :: 0 <= i < |x| && i < |y| && x[..i] == y[..i] && x[i] < y[i]))
  {
    TextOrder(a.net.Text(), b.net.Text());
  }

  // Whatever order the map was walked in, sorting gives that listing ...
  lemma SortedIsViaIndex(ids: seq<User>, sessions: map<User, Sid>, accounts: map<Sid, Account>)
    requires Enumerates(ids, sessions.Keys)
    ensures IsViaIndex(Sort(Gather(ids, sessions, accounts), ViaLe), sessions, accounts)
  {
    ViaLeTotalOrder();
    SortSorted(Gather(ids, sessions, accounts), ViaLe);
  }

  // ... and there is only one.
  lemma ViaIndexUnique(a: seq<Via>, b: seq<Via>, sessions: map<User, Sid>, accounts: map<Sid, Account>)
    requires IsViaIndex(a, sessions, accounts) && IsViaIndex(b, sessions, accounts)
    ensures a == b
  {
    var ids :| Enumerates(ids, sessions.Keys) && multiset(a) == multiset(Gather(ids, sessions, accounts));
    var other :| Enumerates(other, sessions.Keys) && multiset(b) == multiset(Gather(other, sessions, accounts));
    assert forall u :: u in ids <==> u in other;
    SameMembersSameMultiset(ids, other);
    GatherPermutes(ids, other, sessions, accounts);
    ViaLeTotalOrder();
    SortedUnique(a, b, ViaLe);
  }

  lemma {:induction false} GatherPermutes(a: seq<User>, b: seq<User>,
          sessions: map<User, Sid>, accounts: map<Sid, Account>)
    requires multiset(a) == multiset(b)
    ensures multiset(Gather(a, sessions, accounts)) == multiset(Gather(b, sessions, accounts))
  {
    assert |multiset(a)| == |a| && |multiset(b)| == |b|;
    if a != [] {
      var front, u := a[..|a| - 1], a[|a| - 1];
      var x, y := TakeOut(a, front, u, b);
      GatherPermutes(front, x + y, sessions, accounts);
      GatherMiddle(x, u, y, sessions, accounts);
    }
  }

  lemma TakeOut(a: seq<User>, front: seq<User>, u: User, b: seq<User>) returns (x: seq<User>, y: seq<User>)
    requires multiset(a) == multiset(b) && a == front + [u]
    ensures b == x + [u] + y && multiset(x + y) == multiset(front)
  {
    assert a == front + [u] + [] && front == front + [];
    MultisetWithout(front, u, []);
    assert u in multiset(b);
    var i :| 0 <= i < |b| && b[i] == u;
    x, y := b[..i], b[i + 1..];
    assert b == x + [u] + y;
    MultisetWithout(x, u, y);
  }

  lemma GatherMiddle(x: seq<User>, u: User, y: seq<User>, sessions: map<User, Sid>, accounts: map<Sid, Account>)
    ensures multiset(Gather(x + [u] + y, sessions, accounts))
         == multiset(Gather(x + y, sessions, accounts)) + multiset(RoutesOf(sessions, accounts, u))
  {
    GatherConcat(x + [u], y, sessions, accounts);
    GatherConcat(x, y, sessions, accounts);
    assert (x + [u])[..|x|] == x;
  }

  lemma {:induction false} GatherConcat(x: seq<User>, y: seq<User>,
          sessions: map<User, Sid>, accounts: map<Sid, Account>)
    ensures Gather(x + y, sessions, accounts) == Gather(x, sessions, accounts) + Gather(y, sessions, accounts)
  {
    if y == [] {
      assert x + y == x;
    } else {
      var front := y[..|y| - 1];
      assert (x + y)[..|x + y| - 1] == x + front;
      GatherConcat(x, front, sessions, accounts);
    }
  }

  // A route is in the index exactly when some online session installed it.
  lemma ViaIndexMembers(idx: seq<Via>, sessions: map<User, Sid>, accounts: map<Sid, Account>, v: Via)
    requires IsViaIndex(idx, sessions, accounts)
    ensures v in idx <==> exists u :: u in sessions && v in RoutesOf(sessions, accounts, u)
  {
    var ids :| Enumerates(ids, sessions.Keys) && multiset(idx) == multiset(Gather(ids, sessions, accounts));
    MembersOfMultiset(idx, Gather(ids, sessions, accounts));
    GatherMembers(ids, sessions, accounts, v);
  }

  lemma {:induction false} GatherMembers(ids: seq<User>, sessions: map<User, Sid>, accounts: map<Sid, Account>, v: Via)
    ensures v in Gather(ids, sessions, accounts) <==> exists u :: u in ids && v in RoutesOf(sessions, accounts, u)
  {
    if ids != [] {
      var front, last := ids[..|ids| - 1], ids[|ids| - 1];
      GatherMembers(front, sessions, accounts, v);
      assert ids == front + [last];
      assert forall u :: u in ids <==> u in front || u == last;
    }
  }

  // ----- what each critical section does -----

  function WithoutIP(byIP: map<string, Sid>, ip: string): map<string, Sid> {
    if ip != "" then byIP - {ip} else byIP
  }

  predicate Registered(s: State, u: User) {
    u in s.sessions && s.sessions[u] in s.accounts
  }

  function Current(s: State, u: User): Account
    requires Registered(s, u)
  {
    s.accounts[s.sessions[u]]
  }

  // RegisterVPN, first section, when the old session gives way: it is taken out
  // and loses its cipher. The via index is left for the second section.
  function Detach(s: State, u: User): State
    requires Registered(s, u)
  {
    var sid, was := s.sessions[u], Current(s, u);
    State(s.sessions - {u}, WithoutIP(s.byIP, was.vpnIP), s.vpnIndex, s.viaIndex,
        s.accounts[sid := was.(cipher := None)])
  }

  // The other sections end by rebuilding the via index; idx is what they built.
  ghost predicate Indexed(s: State) {
    IsViaIndex(s.viaIndex, s.sessions, s.accounts)
  }

  // RegisterVPN, second section.
  function Attach(s: State, sid: Sid, a: Account, idx: seq<Via>): State {
    State(
      s.sessions[a.user := sid],
      if a.vpnIP != "" then s.byIP[a.vpnIP := sid] else s.byIP,
      if a.vpnIP != "" then s.vpnIndex[a.vpnIP := a.user] else s.vpnIndex,
      idx,
      s.accounts[sid := a])
  }

  // RemoveIfConn and KickUser, when they find their session.
  function Leave(s: State, u: User, idx: seq<Via>): State
    requires Registered(s, u)
  {
    State(s.sessions - {u}, WithoutIP(s.byIP, Current(s, u).vpnIP), s.vpnIndex, idx, s.accounts)
  }

  // Key by key: who is online, under which address, and who owns which address,
  // once a session has been put in or taken out.
  lemma AttachExactly(s: State, sid: Sid, a: Account, idx: seq<Via>, u: User, ip: string)
    ensures var t := Attach(s, sid, a, idx);
      && (u in t.sessions <==> u == a.user || u in s.sessions)
      && (u in t.sessions ==> t.sessions[u] == if u == a.user then sid else s.sessions[u])
      && (ip in t.byIP <==> ip in s.byIP || (ip == a.vpnIP && ip != ""))
      && (ip in t.byIP ==> t.byIP[ip] == if ip == a.vpnIP && ip != "" then sid else s.byIP[ip])
      && (ip in t.vpnIndex <==> ip in s.vpnIndex || (ip == a.vpnIP && ip != ""))
      && (ip in t.vpnIndex ==> t.vpnIndex[ip] == if ip == a.vpnIP && ip != "" then a.user else s.vpnIndex[ip])
  {
  }

  lemma LeaveExactly(s: State, u: User, idx: seq<Via>, w: User, ip: string)
    requires Registered(s, u)
    ensures forall t :: t == Detach(s, u) || t == Leave(s, u, idx) ==>
      && (w in t.sessions <==> w in s.sessions && w != u)
      && (w in t.sessions ==> t.sessions[w] == s.sessions[w])
      && (ip in t.byIP <==> ip in s.byIP && (ip != Current(s, u).vpnIP || ip == ""))
      && (ip in t.byIP ==> t.byIP[ip] == s.byIP[ip])
      && t.vpnIndex == s.vpnIndex
    ensures forall sid :: sid in s.accounts ==>
      && Leave(s, u, idx).accounts[sid] == s.accounts[sid]
      && Detach(s, u).accounts[sid]
           == if sid == s.sessions[u] then s.accounts[sid].(cipher := None) else s.accounts[sid]
  {
  }

  // Routes through `via` whose network is no longer in its registry.
  predicate Keeps(v: Via, via: User, registry: set<string>) {
    v.via == via ==> v.net.Text() in registry
  }

  function KeptRoutes(routes: seq<Via>, via: User, registry: set<string>): seq<Via> {
    if routes == [] then []
    else
      var front, last := routes[..|routes| - 1], routes[|routes| - 1];
      KeptRoutes(front, via, registry) + if Keeps(last, via, registry) then [last] else []
  }

  // Of each route as many copies stay as there were, or none: those of other
  // vias stay, those of this one if the registry still has their network.
  lemma {:induction false} KeptExactly(routes: seq<Via>, via: User, registry: set<string>, v: Via)
    ensures multiset(KeptRoutes(routes, via, registry))[v]
         == if v.via != via || v.net.Text() in registry then multiset(routes)[v] else 0
  {
    if routes != [] {
      var front, last := routes[..|routes| - 1], routes[|routes| - 1];
      assert routes == front + [last];
      KeptExactly(front, via, registry, v);
    }
  }

  predicate Online(s: State, sid: Sid) {
    sid in s.accounts && s.accounts[sid].user in s.sessions && s.sessions[s.accounts[sid].user] == sid
  }

  // The accounts once the online sessions of `users` have been pruned.
  function PrunedAccounts(s: State, via: User, registry: set<string>, users: set<User>): map<Sid, Account> {
    map sid | sid in s.accounts ::
      if Online(s, sid) && s.accounts[sid].user in users
      then s.accounts[sid].(viaRoutes := KeptRoutes(s.accounts[sid].viaRoutes, via, registry))
      else s.accounts[sid]
  }

  lemma PruneOneMore(s: State, via: User, registry: set<string>, users: set<User>, u: User)
    requires Registered(s, u) && Current(s, u).user == u && u !in users
    ensures PrunedAccounts(s, via, registry, users + {u})
         == PrunedAccounts(s, via, registry, users)[s.sessions[u] :=
              Current(s, u).(viaRoutes := KeptRoutes(Current(s, u).viaRoutes, via, registry))]
    ensures PrunedAccounts(s, via, registry, users)[s.sessions[u]] == Current(s, u)
  {
  }

  // PruneViaRoutesAfterRegistry.
  function Pruned(s: State, via: User, registry: set<string>, idx: seq<Via>): State {
    s.(accounts := PrunedAccounts(s, via, registry, s.sessions.Keys), viaIndex := idx)
  }

  // ----- who may take over from whom (register_grace.go) -----

  datatype Policy = RejectSecond | KickPrevious

  const SECOND: int := 1_000_000_000

  // How long a peer may be silent before its session counts as half dead.
  function StaleAfter(grace: int): (d: int)
    ensures 8 * SECOND <= d <= 20 * SECOND
    ensures grace <= 0 ==> d == 20 * SECOND
    ensures 8 * SECOND <= grace <= 20 * SECOND ==> d == grace
    ensures 0 < grace < 8 * SECOND ==> d == 8 * SECOND
    ensures grace > 20 * SECOND ==> d == 20 * SECOND
  {
    if grace <= 0 then 20 * SECOND
    else if grace > 20 * SECOND then 20 * SECOND
    else if grace < 8 * SECOND then 8 * SECOND
    else grace
  }

  // lastActivity is None when the connection cannot tell or never saw any.
  predicate PeerStale(lastActivity: Option<int>, now: int, after: int) {
    after > 0 && lastActivity.Some? && now - lastActivity.value >= after
  }

  // Hosts are the normalized host parts of the two remote addresses.
  predicate SameHost(a: string, b: string) {
    a != "" && a == b
  }

  predicate GivesWay(policy: Policy, grace: int, oldHost: string, newHost: string,
          lastActivity: Option<int>, now: int)
  {
    policy.KickPrevious? ||
    (grace > 0 && (SameHost(oldHost, newHost) || PeerStale(lastActivity, now, StaleAfter(grace))))
  }

  // With reject-second: who was heard less than 8 seconds ago is never displaced
  // from another host, and who has been silent for 20 seconds always may be.
  lemma DisplacedOnlyWhenSilent(grace: int, oldHost: string, newHost: string, heard: int, now: int)
    ensures oldHost != newHost && now - heard < 8_000_000_000 ==>
              !GivesWay(RejectSecond, grace, oldHost, newHost, Some(heard), now)
    ensures grace > 0 && now - heard >= 20_000_000_000 ==>
              GivesWay(RejectSecond, grace, oldHost, newHost, Some(heard), now)
  {
  }
}
