// What the address pool keeps over every run, and when it finds a free address.
module PoolRuns {
  import Arithmetic
  import Bytes
  import opened IpPool
  import opened Wrappers

  datatype Action =
    | Reserve(a: nat) | Allocate(peer: Peer) | AllocateSpecific(ip: Option<nat>, peer: Peer) | Release(a: nat)

  ghost predicate Step(sub: Subnet, s: State, action: Action, t: State) {
    match action
    case Reserve(a) => t == s.(reserved := s.reserved + {a})
    case Allocate(peer) => exists r :: Allocates(sub, s, peer, t, r)
    case AllocateSpecific(ip, peer) => t == Specific(sub, s, ip, peer).0
    case Release(a) => t == s.(owners := s.owners - {a})
  }

  ghost predicate Run(sub: Subnet, states: seq<State>, actions: seq<Action>) {
    && |states| == |actions| + 1
    && states[0] == New(sub)
    && forall i :: 0 <= i < |actions| ==> Step(sub, states[i], actions[i], states[i + 1])
  }

  predicate Owns(s: State, peer: Peer, a: nat) {
    a in s.owners && s.owners[a] == peer
  }

  // ----- ownership -----

  lemma StepKeepsOwner(sub: Subnet, s: State, action: Action, t: State, peer: Peer, a: nat)
    requires Step(sub, s, action, t) && peer != 0 && Owns(s, peer, a) && action != Release(a)
    ensures Owns(t, peer, a)
  {
  }

  // Whoever owns an address owns it until it is released: no call of Allocate or
  // AllocateSpecific, for any peer, passes it on.
  lemma {:induction false} OwnerKeepsAddress(sub: Subnet, states: seq<State>, actions: seq<Action>, i: nat, j: nat,
          peer: Peer, a: nat)
    requires Run(sub, states, actions) && i <= j <= |actions|
    requires peer != 0 && Owns(states[i], peer, a)
    requires forall k :: i <= k < j ==> actions[k] != Release(a)
    ensures Owns(states[j], peer, a)
  {
    if i < j {
      OwnerKeepsAddress(sub, states, actions, i, j - 1, peer, a);
      StepKeepsOwner(sub, states[j - 1], actions[j - 1], states[j], peer, a);
    }
  }

  // A peer is given the address it names exactly when it is a pool address, not
  // reserved, and owned by nobody else; whatever else is owned stays as it is.
  lemma SpecificExactly(sub: Subnet, s: State, ip: Option<nat>, peer: Peer, a: nat)
    ensures var (t, error) := Specific(sub, s, ip, peer);
            && (error.None? <==> ip.Some? && sub.Contains(ip.value) && ip.value !in s.reserved
                                 && forall p :: Owns(s, p, ip.value) ==> p == 0 || p == peer)
            && (error.None? ==> Owns(t, peer, ip.value))
            && (error.Some? || Some(a) != ip ==> (forall p :: Owns(t, p, a) <==> Owns(s, p, a)))
            && t.reserved == s.reserved && t.next == s.next
  {
    if ip.Some? && ip.value in s.owners {
      assert Owns(s, s.owners[ip.value], ip.value);
    }
  }

  ghost predicate Within(sub: Subnet, s: State) {
    s.next < sub.Size() && forall a :: a in s.owners ==> sub.Contains(a)
  }

  lemma {:induction false} OnlyPoolAddresses(sub: Subnet, states: seq<State>, actions: seq<Action>, n: nat)
    requires Run(sub, states, actions) && n <= |actions|
    ensures Within(sub, states[n])
  {
    if n > 0 {
      OnlyPoolAddresses(sub, states, actions, n - 1);
      assert Step(sub, states[n - 1], actions[n - 1], states[n]);
    }
  }

  // ----- reservations -----

  ghost predicate Disjoint(s: State) {
    forall a :: a in s.owners ==> a !in s.reserved
  }

  // Only reserving an address already handed out makes the two overlap.
  lemma StepKeepsDisjointIff(sub: Subnet, s: State, action: Action, t: State)
    requires Step(sub, s, action, t) && Disjoint(s)
    ensures Disjoint(t) <==> !(action.Reserve? && action.a in s.owners)
  {
  }

  // So reservations made before anything else are never handed out.
  lemma {:induction false} ReservationsFirst(sub: Subnet, states: seq<State>, actions: seq<Action>, first: nat, n: nat)
    requires Run(sub, states, actions) && n <= |actions|
    requires forall i :: 0 <= i < |actions| ==> (actions[i].Reserve? <==> i < first)
    ensures Disjoint(states[n]) && (n <= first ==> states[n].owners == map[])
  {
    if n > 0 {
      ReservationsFirst(sub, states, actions, first, n - 1);
      StepKeepsDisjointIff(sub, states[n - 1], actions[n - 1], states[n]);
    }
  }

  // ----- finding a free address -----

  // How far the cursor is from an address, going up and round.
  function Ahead(sub: Subnet, s: State, a: nat): nat {
    (a - s.next) % sub.Size()
  }

  // Allocate succeeds exactly when a usable address lies less than 256 ahead of
  // the cursor, however many others are free.
  lemma AllocatesIffNear(sub: Subnet, s: State, peer: Peer, t: State, r: Result<nat, PoolError>)
    requires Allocates(sub, s, peer, t, r)
    ensures r.Ok? <==> exists a: nat :: a < sub.Size() && Usable(sub, s, a) && Ahead(sub, s, a) < PROBES
  {
    if r.Ok? {
      SuccessIsNear(sub, s, peer, t, r.value);
    } else {
      FailureIsFar(sub, s, peer, t, r.error);
    }
  }

  lemma SuccessIsNear(sub: Subnet, s: State, peer: Peer, t: State, a: nat)
    requires Allocates(sub, s, peer, t, Ok(a))
    ensures a < sub.Size() && Usable(sub, s, a) && Ahead(sub, s, a) < PROBES
  {
    var k := Probed(sub, s, peer, t, a);
    FirstIsNear(sub, s, k);
  }

  lemma Probed(sub: Subnet, s: State, peer: Peer, t: State, a: nat) returns (k: nat)
    requires Allocates(sub, s, peer, t, Ok(a))
    ensures FirstUsable(sub, s, k) && a == Probe(sub, s, k)
  {
    k :| FirstUsable(sub, s, k) && a == Probe(sub, s, k);
  }

  lemma FirstIsNear(sub: Subnet, s: State, k: nat)
    requires FirstUsable(sub, s, k)
    ensures var a := Probe(sub, s, k); a < sub.Size() && Usable(sub, s, a) && Ahead(sub, s, a) < PROBES
  {
    ProbeIsNear(sub, s, k);
  }

  lemma FailureIsFar(sub: Subnet, s: State, peer: Peer, t: State, error: PoolError)
    requires Allocates(sub, s, peer, t, Err(error))
    ensures forall a: nat :: a < sub.Size() && Usable(sub, s, a) ==> Ahead(sub, s, a) >= PROBES
  {
    forall a: nat | a < sub.Size() && Usable(sub, s, a)
      ensures Ahead(sub, s, a) >= PROBES
    {
      NearIsProbed(sub, s, a);
    }
  }

  // Neither reserved nor owned, and in the subnet.
  predicate Free(sub: Subnet, s: State, a: nat) {
    && sub.net <= a < sub.net + Arithmetic.Pow2(8 * sub.width - sub.len)
    && a !in s.reserved
    && (a in s.owners ==> s.owners[a] == 0)
  }

  lemma FreeIsUsable(sub: Subnet, s: State)
    ensures forall a: nat :: Free(sub, s, a) <==> Usable(sub, s, a)
  {
    forall a: nat ensures Free(sub, s, a) <==> Usable(sub, s, a) {
      SubnetIsRange(sub, a);
    }
  }

  // Of the free addresses less than 256 ahead, counting up and round, Allocate
  // hands out the nearest and moves just past it; with none it moves 256 on.
  lemma AllocatesNearest(sub: Subnet, s: State, peer: Peer, t: State, r: Result<nat, PoolError>)
    requires Allocates(sub, s, peer, t, r)
    ensures r.Ok? <==> exists a: nat :: a < sub.Size() && Free(sub, s, a) && (a - s.next) % sub.Size() < 256
    ensures r.Ok? ==>
      && r.value < sub.Size() && Free(sub, s, r.value)
      && (forall b: nat :: b < sub.Size() && Free(sub, s, b) ==>
            (r.value - s.next) % sub.Size() <= (b - s.next) % sub.Size())
      && t == State((r.value + 1) % sub.Size(), s.owners[r.value := peer], s.reserved)
    ensures r.Err? ==> r.error == NoFreeAddress && t == State((s.next + 256) % sub.Size(), s.owners, s.reserved)
  {
    FreeIsUsable(sub, s);
    AllocatesIffNear(sub, s, peer, t, r);
    if r.Ok? {
      var a := r.value;
      var k: nat :| FirstUsable(sub, s, k) && a == Probe(sub, s, k)
                    && t == State(Probe(sub, s, k + 1), s.owners[a := peer], s.reserved);
      FirstIsNear(sub, s, k);
      ProbeIsNear(sub, s, k);
      NextProbe(sub, s, k);
      forall b: nat | b < sub.Size() && Usable(sub, s, b) ensures Ahead(sub, s, a) <= Ahead(sub, s, b) {
        NearIsProbed(sub, s, b);
      }
    }
  }

  lemma ProbeIsNear(sub: Subnet, s: State, k: nat)
    ensures Probe(sub, s, k) < sub.Size() && Ahead(sub, s, Probe(sub, s, k)) <= k
  {
    Arithmetic.StepsOn(s.next, k, sub.Size());
  }

  lemma NearIsProbed(sub: Subnet, s: State, a: nat)
    requires a < sub.Size()
    ensures Probe(sub, s, Ahead(sub, s, a)) == a
  {
    Arithmetic.StepsReach(s.next, a, sub.Size());
  }

  // The cursor does not turn back at the end of the subnet. In 10.0.0.0/30 the
  // three addresses after the first go out, one comes back, and the next call
  // finds none: its 256 probes start beyond the subnet.
  lemma ReleasedIsNotFound(sub: Subnet) returns (states: seq<State>, actions: seq<Action>)
    requires sub == Subnet(4, 0x0A00_0000, 30)
    ensures Run(sub, states, actions) && |actions| == 4
    ensures actions[3] == Release(0x0A00_0001) && Usable(sub, states[4], 0x0A00_0001)
    ensures forall peer, t, r :: Allocates(sub, states[4], peer, t, r) ==> r == Err(NoFreeAddress)
  {
    var net: nat := 0x0A00_0000;
    SmallPowers();
    assert sub.Size() == 0x1_0000_0000 && Arithmetic.Pow2(8 * sub.width - sub.len) == 4;
    actions := [Allocate(1), Allocate(2), Allocate(3), Release(net + 1)];
    var s0 := New(sub);
    var s1 := State(net + 2, map[net + 1 := 1], {});
    var s2 := State(net + 3, map[net + 1 := 1, net + 2 := 2], {});
    var s3 := State(net + 4, map[net + 1 := 1, net + 2 := 2, net + 3 := 3], {});
    var s4 := s3.(owners := s3.owners - {net + 1});
    states := [s0, s1, s2, s3, s4];
    FirstTry(sub, s0, 1, s1);
    FirstTry(sub, s1, 2, s2);
    FirstTry(sub, s2, 3, s3);
    assert Step(sub, s0, actions[0], s1) && Step(sub, s1, actions[1], s2) && Step(sub, s2, actions[2], s3);
    forall peer, t, r | Allocates(sub, s4, peer, t, r)
      ensures r == Err(NoFreeAddress)
    {
      AllBeyond(sub, s4);
    }
  }

  lemma SmallPowers()
    ensures Bytes.Power256(4) == 0x1_0000_0000 && Arithmetic.Pow2(2) == 4
  {
    assert Bytes.Power256(1) == 256;
    assert Bytes.Power256(2) == 0x1_0000;
    assert Bytes.Power256(3) == 0x100_0000;
  }

  lemma FirstTry(sub: Subnet, s: State, peer: Peer, t: State)
    requires Usable(sub, s, Probe(sub, s, 0))
    requires t == State(Probe(sub, s, 1), s.owners[Probe(sub, s, 0) := peer], s.reserved)
    ensures Allocates(sub, s, peer, t, Ok(Probe(sub, s, 0)))
  {
    assert FirstUsable(sub, s, 0);
  }

  lemma AllBeyond(sub: Subnet, s: State)
    requires sub == Subnet(4, 0x0A00_0000, 30) && s.next == 0x0A00_0004
    ensures forall k: nat :: k < PROBES ==> !Usable(sub, s, Probe(sub, s, k))
  {
    SmallPowers();
  }
}
