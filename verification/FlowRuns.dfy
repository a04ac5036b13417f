// Every interleaving of the tracker's critical sections. A call of
// ObservePacket runs its fast section and, on a miss, its slow section later;
// between the two any number of sections of other goroutines may run, and
// List purges shards at any time. Times are whatever each call read.
module FlowRuns {
  import Arithmetic
  import opened FlowTable

  datatype Call = Call(id: nat, key: Key, size: nat, dir: int, now: int)

  datatype Action =
    | Fast(call: Call)
    | Slow(call: Call)
    | Sweep(shard: nat, cutoff: int)

  datatype State = State(flows: map<Key, Flow>, ticks: seq<nat>, waiting: multiset<Call>)

  ghost predicate Initial(s: State) {
    s == State(map[], seq(SHARDS, _ => 0), multiset{})
  }

  ghost predicate Step(cfg: Config, s: State, a: Action, t: State)
    requires cfg.Valid()
  {
    |s.ticks| == SHARDS &&
    match a
    case Fast(c) =>
      var i := cfg.place(c.key);
      var (flows, hit) := FastPath(cfg, s.flows, c.key, c.size, c.dir, s.ticks[i], c.now);
      t == State(flows, s.ticks[i := NextTick(s.ticks[i])], if hit then s.waiting else s.waiting + multiset{c})
    case Slow(c) =>
      && c in s.waiting
      && SlowPath(cfg, s.flows, t.flows, c.key, c.size, c.dir, c.now)
      && t.ticks == s.ticks && t.waiting == s.waiting - multiset{c}
    case Sweep(shard, cutoff) =>
      t == s.(flows := Purge(cfg.place, s.flows, shard, cutoff))
  }

  // states[i] --actions[i]--> states[i + 1]
  ghost predicate Run(cfg: Config, states: seq<State>, actions: seq<Action>)
    requires cfg.Valid()
  {
    && |states| == |actions| + 1
    && Initial(states[0])
    && forall i :: 0 <= i < |actions| ==> Step(cfg, states[i], actions[i], states[i + 1])
  }

  // ----- no user ever has more than maxPerUser flows -----

  ghost predicate WithinCap(cfg: Config, m: map<Key, Flow>) {
    forall u :: |UserKeys(m, u)| <= cfg.maxPerUser
  }

  lemma SmallerSet<T>(a: set<T>, b: set<T>)
    requires a <= b
    ensures |a| <= |b|
  {
    if a != b {
      var x :| x in b && x !in a;
      assert a <= b - {x};
      SmallerSet(a, b - {x});
    }
  }

  lemma SubmapWithinCap(cfg: Config, m: map<Key, Flow>, n: map<Key, Flow>)
    requires WithinCap(cfg, m) && n.Keys <= m.Keys
    ensures WithinCap(cfg, n)
  {
    forall u ensures |UserKeys(n, u)| <= cfg.maxPerUser {
      SmallerSet(UserKeys(n, u), UserKeys(m, u));
    }
  }

  lemma InsertWithinCap(cfg: Config, kept: map<Key, Flow>, k: Key, f: Flow)
    requires WithinCap(cfg, kept) && |UserKeys(kept, k.user)| < cfg.maxPerUser
    ensures WithinCap(cfg, kept[k := f])
  {
    var n := kept[k := f];
    forall u ensures |UserKeys(n, u)| <= cfg.maxPerUser {
      if u == k.user {
        SmallerSet(UserKeys(n, u), UserKeys(kept, u) + {k});
      } else {
        SmallerSet(UserKeys(n, u), UserKeys(kept, u));
      }
    }
  }

  lemma WithoutSome(a: set<Key>, b: set<Key>)
    requires b <= a
    ensures |a - b| == |a| - |b|
  {
    assert a == (a - b) + b;
  }

  lemma RoomMade(m: map<Key, Flow>, kept: map<Key, Flow>, user: int, max: nat)
    requires max > 0 && Evicted(m, kept, user, max)
    ensures kept.Keys <= m.Keys && |UserKeys(kept, user)| < max
  {
    var count := |UserKeys(m, user)|;
    var victims :| OldestOf(m, user, victims) && kept == m - victims
      && |victims| == (if count >= max then count - max + 1 else 0);
    assert UserKeys(kept, user) == UserKeys(m, user) - victims;
    WithoutSome(UserKeys(m, user), victims);
  }

  lemma StepWithinCap(cfg: Config, s: State, a: Action, t: State)
    requires cfg.Valid() && Step(cfg, s, a, t) && WithinCap(cfg, s.flows)
    ensures WithinCap(cfg, t.flows)
  {
    match a
    case Fast(c) => SubmapWithinCap(cfg, s.flows, t.flows);
    case Sweep(_, _) => SubmapWithinCap(cfg, s.flows, t.flows);
    case Slow(c) =>
      if c.key in s.flows {
        SubmapWithinCap(cfg, s.flows, t.flows);
      } else {
        var kept :| Evicted(s.flows, kept, c.key.user, cfg.maxPerUser)
          && t.flows == kept[c.key := Bump(NewFlow(c.now), c.size, c.dir, c.now)];
        RoomMade(s.flows, kept, c.key.user, cfg.maxPerUser);
        SubmapWithinCap(cfg, s.flows, kept);
        InsertWithinCap(cfg, kept, c.key, t.flows[c.key]);
      }
  }

  lemma {:induction false} CapHolds(cfg: Config, states: seq<State>, actions: seq<Action>, user: int)
    requires cfg.Valid() && Run(cfg, states, actions)
    ensures |UserKeys(states[|actions|].flows, user)| <= cfg.maxPerUser
  {
    RunWithinCap(cfg, states, actions, |actions|);
  }

  lemma {:induction false} RunWithinCap(cfg: Config, states: seq<State>, actions: seq<Action>, n: nat)
    requires cfg.Valid() && Run(cfg, states, actions) && n <= |actions|
    ensures WithinCap(cfg, states[n].flows)
  {
    if n == 0 {
      forall u ensures |UserKeys(states[0].flows, u)| <= cfg.maxPerUser {
        assert UserKeys(states[0].flows, u) == {};
      }
    } else {
      RunWithinCap(cfg, states, actions, n - 1);
      StepWithinCap(cfg, states[n - 1], actions[n - 1], states[n]);
    }
  }

  // ----- counters are exactly what was seen since the flow was last inserted -----

  predicate Sees(a: Action, k: Key) {
    !a.Sweep? && a.call.key == k
  }

  function Inbound(a: Action): bool
    requires !a.Sweep?
  {
    a.call.dir == DIR_IN
  }

  function Bytes(actions: seq<Action>, k: Key, inbound: bool): nat {
    if actions == [] then 0
    else
      var a := actions[|actions| - 1];
      Bytes(actions[..|actions| - 1], k, inbound) + if Sees(a, k) && Inbound(a) == inbound then a.call.size else 0
  }

  function Packets(actions: seq<Action>, k: Key, inbound: bool): nat {
    if actions == [] then 0
    else
      var a := actions[|actions| - 1];
      Packets(actions[..|actions| - 1], k, inbound) + if Sees(a, k) && Inbound(a) == inbound then 1 else 0
  }

  // The flow for k counts the packets of actions[from..to] and no others; the
  // first of them inserted it and the last of them set lastSeen.
  ghost predicate Accounts(f: Flow, k: Key, actions: seq<Action>, from: nat, to: nat) {
    from < to <= |actions| &&
    var seen := actions[from..to];
    && f.bytesIn == Wrap64(Bytes(seen, k, true))
    && f.bytesOut == Wrap64(Bytes(seen, k, false))
    && f.packetsIn == Wrap64(Packets(seen, k, true))
    && f.packetsOut == Wrap64(Packets(seen, k, false))
    && actions[from].Slow? && actions[from].call.key == k && f.firstSeen == actions[from].call.now
    && exists last :: from <= last < to && Sees(actions[last], k) && f.lastSeen == actions[last].call.now
                      && forall i :: last < i < to ==> !Sees(actions[i], k)
  }

  lemma WrapAdds(x: int, y: int)
    ensures Wrap64(Wrap64(x) + y) == Wrap64(x + y)
  {
    var half := TWO64 / 2;
    var q := (x + half) / TWO64;
    assert Wrap64(x) + y + half == x + y + half - q * TWO64;
    Arithmetic.ResidueShift(x + y + half, q, TWO64);
  }

  // A live flow that was live before is the old flow, bumped if this action saw its key.
  lemma StepKeepsFlow(cfg: Config, s: State, a: Action, t: State, k: Key)
    requires cfg.Valid() && Step(cfg, s, a, t) && k in t.flows && k in s.flows
    ensures t.flows[k] == if Sees(a, k) then Bump(s.flows[k], a.call.size, a.call.dir, a.call.now) else s.flows[k]
  {
  }

  // A flow that appears was inserted by the slow section of its own key.
  lemma StepInsertsFlow(cfg: Config, s: State, a: Action, t: State, k: Key)
    requires cfg.Valid() && Step(cfg, s, a, t) && k in t.flows && k !in s.flows
    ensures a.Slow? && a.call.key == k
    ensures t.flows[k] == Bump(NewFlow(a.call.now), a.call.size, a.call.dir, a.call.now)
  {
  }

  lemma ExtendAccount(f: Flow, k: Key, actions: seq<Action>, from: nat, to: nat)
    requires to < |actions| && Accounts(f, k, actions, from, to)
    ensures var a := actions[to];
            Accounts(if Sees(a, k) then Bump(f, a.call.size, a.call.dir, a.call.now) else f, k, actions, from, to + 1)
  {
    var a := actions[to];
    var seen, more := actions[from..to], actions[from..to + 1];
    assert more[..|more| - 1] == seen;
    var last :| from <= last < to && Sees(actions[last], k) && f.lastSeen == actions[last].call.now
                && forall i :: last < i < to ==> !Sees(actions[i], k);
    if Sees(a, k) {
      WrapAdds(Bytes(seen, k, Inbound(a)), a.call.size);
      WrapAdds(Packets(seen, k, Inbound(a)), 1);
      assert to <= to < to + 1 && Sees(actions[to], k);
    } else {
      assert from <= last < to + 1 && Sees(actions[last], k);
    }
  }

  lemma OpenAccount(k: Key, actions: seq<Action>, at: nat)
    requires at < |actions| && actions[at].Slow? && actions[at].call.key == k
    ensures var c := actions[at].call;
            Accounts(Bump(NewFlow(c.now), c.size, c.dir, c.now), k, actions, at, at + 1)
  {
    var seen := actions[at..at + 1];
    assert seen[..0] == [] && |seen| == 1;
    assert at <= at < at + 1 && Sees(actions[at], k);
  }

  // What a step does to the flow of one key: keep it, bump it, open it or drop it.
  predicate FlowStep(s: map<Key, Flow>, a: Action, t: map<Key, Flow>, k: Key) {
    k in t ==>
      if k in s then t[k] == if Sees(a, k) then Bump(s[k], a.call.size, a.call.dir, a.call.now) else s[k]
      else a.Slow? && a.call.key == k && t[k] == Bump(NewFlow(a.call.now), a.call.size, a.call.dir, a.call.now)
  }

  ghost predicate FlowSteps(states: seq<State>, actions: seq<Action>, k: Key) {
    && |states| == |actions| + 1
    && k !in states[0].flows
    && forall i :: 0 <= i < |actions| ==> FlowStep(states[i].flows, actions[i], states[i + 1].flows, k)
  }

  lemma RunFlowSteps(cfg: Config, states: seq<State>, actions: seq<Action>, k: Key)
    requires cfg.Valid() && Run(cfg, states, actions)
    ensures FlowSteps(states, actions, k)
  {
    forall i | 0 <= i < |actions|
      ensures FlowStep(states[i].flows, actions[i], states[i + 1].flows, k)
    {
      assert Step(cfg, states[i], actions[i], states[i + 1]);
      StepIsFlowStep(cfg, states[i], actions[i], states[i + 1], k);
    }
  }

  lemma StepIsFlowStep(cfg: Config, s: State, a: Action, t: State, k: Key)
    requires cfg.Valid() && Step(cfg, s, a, t)
    ensures FlowStep(s.flows, a, t.flows, k)
  {
    if k in t.flows {
      if k in s.flows {
        StepKeepsFlow(cfg, s, a, t, k);
      } else {
        StepInsertsFlow(cfg, s, a, t, k);
      }
    }
  }

  lemma {:induction false} AccountFrom(states: seq<State>, actions: seq<Action>, n: nat, k: Key) returns (from: nat)
    requires FlowSteps(states, actions, k) && n <= |actions| && k in states[n].flows
    ensures from < n && k !in states[from].flows
    ensures forall i :: from < i <= n ==> k in states[i].flows
    ensures Accounts(states[n].flows[k], k, actions, from, n)
  {
    assert FlowStep(states[n - 1].flows, actions[n - 1], states[n].flows, k);
    if k in states[n - 1].flows {
      from := AccountFrom(states, actions, n - 1, k);
      AccountGoesOn(states[n - 1].flows, states[n].flows, k, actions, from, n - 1);
    } else {
      from := n - 1;
      AccountOpens(states[n - 1].flows, states[n].flows, k, actions, n - 1);
    }
  }

  lemma AccountGoesOn(s: map<Key, Flow>, t: map<Key, Flow>, k: Key, actions: seq<Action>, from: nat, n: nat)
    requires n < |actions| && FlowStep(s, actions[n], t, k) && k in t && k in s
    requires Accounts(s[k], k, actions, from, n)
    ensures Accounts(t[k], k, actions, from, n + 1)
  {
    ExtendAccount(s[k], k, actions, from, n);
  }

  lemma AccountOpens(s: map<Key, Flow>, t: map<Key, Flow>, k: Key, actions: seq<Action>, n: nat)
    requires n < |actions| && FlowStep(s, actions[n], t, k) && k in t && k !in s
    ensures Accounts(t[k], k, actions, n, n + 1)
  {
    OpenAccount(k, actions, n);
  }

  // The main result on counters, for every run and every live flow.
  lemma CountersExact(cfg: Config, states: seq<State>, actions: seq<Action>, n: nat, k: Key)
      returns (from: nat)
    requires cfg.Valid() && Run(cfg, states, actions) && n <= |actions|
    requires k in states[n].flows
    ensures from < n && k !in states[from].flows
    ensures forall i :: from < i <= n ==> k in states[i].flows
    ensures Accounts(states[n].flows[k], k, actions, from, n)
  {
    RunFlowSteps(cfg, states, actions, k);
    from := AccountFrom(states, actions, n, k);
  }

  // ----- a flow leaves for one of two reasons -----

  // An every-th packet of its shard, or a sweep of its shard, with a cutoff
  // after the time it was last seen.
  predicate TimedOut(cfg: Config, s: State, a: Action, k: Key, lastSeen: int)
    requires cfg.Valid() && |s.ticks| == SHARDS
  {
    match a
    case Fast(c) =>
      && cfg.place(c.key) == cfg.place(k)
      && (s.ticks[cfg.place(k)] + 1) % 0x1_0000_0000_0000_0000 % cfg.every == 0
      && lastSeen < c.now - cfg.ttl
    case Slow(_) => false
    case Sweep(shard, cutoff) => cfg.place(k) == shard && lastSeen < cutoff
  }

  // A new flow of the same user, which had no room left, and no flow of that
  // user that stays was last seen earlier.
  ghost predicate MadeRoom(cfg: Config, s: State, a: Action, t: State, k: Key, lastSeen: int) {
    && a.Slow? && a.call.key.user == k.user && a.call.key !in s.flows
    && |set j | j in s.flows && j.user == k.user| >= cfg.maxPerUser
    && forall j :: j in s.flows && j in t.flows && j.user == k.user ==> lastSeen <= s.flows[j].lastSeen
  }

  lemma StepDropsFlow(cfg: Config, s: State, a: Action, t: State, k: Key)
    requires cfg.Valid() && Step(cfg, s, a, t) && k in s.flows
    ensures k !in t.flows ==>
              TimedOut(cfg, s, a, k, s.flows[k].lastSeen) || MadeRoom(cfg, s, a, t, k, s.flows[k].lastSeen)
    ensures TimedOut(cfg, s, a, k, s.flows[k].lastSeen) ==> k !in t.flows
  {
    if a.Slow? && a.call.key !in s.flows && k !in t.flows {
      var c := a.call;
      MissMakesRoom(cfg, s.flows, t.flows, c.key, c.size, c.dir, c.now);
    }
  }

  // In every run a flow that leaves was last seen by some packet of its key,
  // has been in the table ever since, and leaves because that packet is too old
  // or to make room. While it is neither, it stays.
  lemma FlowLeaves(cfg: Config, states: seq<State>, actions: seq<Action>, n: nat, k: Key) returns (last: nat)
    requires cfg.Valid() && Run(cfg, states, actions) && n < |actions|
    requires k in states[n].flows && k !in states[n + 1].flows
    ensures last < n && Sees(actions[last], k)
    ensures forall i :: last < i < n ==> !Sees(actions[i], k)
    ensures forall i :: last < i <= n ==> k in states[i].flows
    ensures |states[n].ticks| == SHARDS
    ensures || TimedOut(cfg, states[n], actions[n], k, actions[last].call.now)
            || MadeRoom(cfg, states[n], actions[n], states[n + 1], k, actions[last].call.now)
  {
    var from := CountersExact(cfg, states, actions, n, k);
    last :| from <= last < n && Sees(actions[last], k) && states[n].flows[k].lastSeen == actions[last].call.now
            && forall i :: last < i < n ==> !Sees(actions[i], k);
    assert Step(cfg, states[n], actions[n], states[n + 1]);
    StepDropsFlow(cfg, states[n], actions[n], states[n + 1], k);
  }
}
