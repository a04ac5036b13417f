// The rate limiter in front of repeated log lines: a shared atomic timestamp that
// any number of goroutines read and try to replace.
module Throttle {
  import Arithmetic

  // A call between two of its atomic operations.
  datatype Call = HasClock(now: int) | Loaded(now: int, prev: int)

  datatype State = State(last: int, calls: map<nat, Call>, grants: seq<int>)   // grants: what was stored, in order

  const FRESH := State(0, map[], [])

  predicate TooSoon(d: int, now: int, prev: int) {
    d > 0 && prev != 0 && now - prev < d
  }

  datatype Action = ReadClock(id: nat, now: int) | LoadLast(id: nat) | Swap(id: nat)

  predicate Enabled(s: State, a: Action) {
    match a
    case ReadClock(id, now) => id !in s.calls && now > 0
    case LoadLast(id) => id in s.calls && s.calls[id].HasClock?
    case Swap(id) => id in s.calls && s.calls[id].Loaded?
  }

  function Next(d: int, s: State, a: Action): State
    requires Enabled(s, a)
  {
    match a
    case ReadClock(id, now) => s.(calls := s.calls[id := HasClock(now)])
    case LoadLast(id) =>
      var now := s.calls[id].now;
      if TooSoon(d, now, s.last) then s.(calls := s.calls - {id})
      else s.(calls := s.calls[id := Loaded(now, s.last)])
    case Swap(id) =>
      if s.last == s.calls[id].prev
      then State(s.calls[id].now, s.calls - {id}, s.grants + [s.calls[id].now])
      else s.(calls := s.calls - {id})
  }

  class Limiter {
    var last: int
    var calls: map<nat, Call>
    ghost var grants: seq<int>

    ghost function View(): State
      reads this
    {
      State(last, calls, grants)
    }

    constructor ()
      ensures View() == FRESH
    {
      last, calls, grants := 0, map[], [];
    }

    method CompareAndSwap(prev: int, now: int) returns (ok: bool)
      modifies this`last, this`grants
      ensures ok == (old(last) == prev)
      ensures ok ==> last == now && grants == old(grants) + [now]
      ensures !ok ==> last == old(last) && grants == old(grants)
    {
      ok := last == prev;
      if ok {
        last := now;
        grants := grants + [now];
      }
    }

    // The two atomic operations of one call of AllowEvery.
    method Load(id: nat, d: int) returns (goOn: bool)
      requires Enabled(View(), LoadLast(id))
      modifies this`calls
      ensures View() == Next(d, old(View()), LoadLast(id)) && goOn == (id in calls)
      ensures goOn <==> d <= 0 || last == 0 || old(calls)[id].now - last >= d
    {
      var now, prev := calls[id].now, last;
      if d > 0 && prev != 0 && now - prev < d {
        calls := calls - {id};
        return false;
      }
      calls := calls[id := Loaded(now, prev)];
      return true;
    }

    method TrySwap(id: nat, d: int) returns (ok: bool)
      requires Enabled(View(), Swap(id))
      modifies this
      ensures View() == Next(d, old(View()), Swap(id)) && ok == (|grants| > |old(grants)|)
    {
      var c := calls[id];
      ok := CompareAndSwap(c.prev, c.now);
      calls := calls - {id};
    }
  }

  // A call nobody interferes with; without an atomic everything is allowed.
  method AllowEvery(limiter: Limiter?, now: int, d: int) returns (ok: bool)
    modifies limiter
    ensures limiter == null ==> ok
    ensures limiter != null ==> (ok <==> d <= 0 || old(limiter.last) == 0 || now - old(limiter.last) >= d)
    ensures limiter != null ==> limiter.last == if ok then now else old(limiter.last)
  {
    if limiter == null {
      return true;
    }
    var prev := limiter.last;
    if d > 0 && prev != 0 && now - prev < d {
      return false;
    }
    ok := limiter.CompareAndSwap(prev, now);
  }

  // ----- every interleaving -----

  ghost predicate Run(d: int, states: seq<State>, actions: seq<Action>) {
    && |states| == |actions| + 1
    && states[0] == FRESH
    && forall i :: 0 <= i < |actions| ==>
         Enabled(states[i], actions[i]) && states[i + 1] == Next(d, states[i], actions[i])
  }

  predicate Spaced(d: int, grants: seq<int>) {
    forall k :: 0 < k < |grants| ==> grants[k] - grants[k - 1] >= d
  }

  predicate Sound(d: int, c: Call) {
    c.now > 0 && (c.Loaded? ==> !TooSoon(d, c.now, c.prev))
  }

  predicate Invariant(d: int, s: State) {
    && s.last == (if s.grants == [] then 0 else s.grants[|s.grants| - 1])
    && (forall k :: 0 <= k < |s.grants| ==> s.grants[k] > 0)
    && (forall id :: id in s.calls ==> Sound(d, s.calls[id]))
    && (d > 0 ==> Spaced(d, s.grants))
  }

  lemma StepKeepsInvariant(d: int, s: State, a: Action)
    requires Invariant(d, s) && Enabled(s, a)
    ensures Invariant(d, Next(d, s, a))
  {
  }

  lemma {:induction false} RunKeepsInvariant(d: int, states: seq<State>, actions: seq<Action>, n: nat)
    requires Run(d, states, actions) && n <= |actions|
    ensures Invariant(d, states[n])
  {
    if n > 0 {
      RunKeepsInvariant(d, states, actions, n - 1);
      StepKeepsInvariant(d, states[n - 1], actions[n - 1]);
    }
  }

  lemma {:induction false} SpacedSpan(d: int, grants: seq<int>, i: nat, j: nat)
    requires Spaced(d, grants) && i <= j < |grants|
    ensures grants[j] - grants[i] >= (j - i) * d
  {
    if i < j {
      SpacedSpan(d, grants, i, j - 1);
      assert grants[j] - grants[j - 1] >= d;
      assert (j - i) * d == (j - 1 - i) * d + d;
    }
  }

  // Grants i and j of a run are at least (j - i) * d apart, however the calls are
  // interleaved and even if the clock steps back between them.
  lemma GrantsSpan(d: int, states: seq<State>, actions: seq<Action>, n: nat, i: nat, j: nat)
    requires Run(d, states, actions) && n <= |actions| && d > 0
    requires i <= j < |states[n].grants|
    ensures states[n].grants[j] - states[n].grants[i] >= (j - i) * d
  {
    RunKeepsInvariant(d, states, actions, n);
    SpacedSpan(d, states[n].grants, i, j);
  }

  // A call that got as far as the swap is refused exactly when another was
  // granted since it looked.
  lemma LostToAnother(d: int, states: seq<State>, actions: seq<Action>, i: nat, j: nat, id: nat)
    requires Run(d, states, actions) && d > 0 && i < j < |actions|
    requires actions[i] == LoadLast(id) && actions[j] == Swap(id)
    requires forall k :: i < k < j ==> actions[k] != LoadLast(id) && actions[k] != Swap(id)
    ensures |states[j + 1].grants| == |states[j].grants| <==> |states[j].grants| > |states[i].grants|
  {
    assert Enabled(states[i], actions[i]) && Enabled(states[j], actions[j]);
    RunKeepsInvariant(d, states, actions, i);
    RunKeepsInvariant(d, states, actions, j);
    StillLoaded(d, states, actions, i, j, id);
    GrantsOnlyGrow(d, states, actions, i, j);
    var grants, m, n := states[j].grants, |states[i].grants|, |states[j].grants|;
    if 0 < m < n {
      SpacedSpan(d, grants, m - 1, n - 1);
      Arithmetic.NonzeroMultiple(n - m, d);
    }
  }

  lemma {:induction false} StillLoaded(d: int, states: seq<State>, actions: seq<Action>, i: nat, j: nat, id: nat)
    requires Run(d, states, actions) && i < j <= |actions| && actions[i] == LoadLast(id)
    requires forall k :: i < k < j ==> actions[k] != LoadLast(id) && actions[k] != Swap(id)
    ensures id in states[j].calls && states[j].calls[id].Loaded? ==> states[j].calls[id].prev == states[i].last
  {
    if i + 1 < j {
      StillLoaded(d, states, actions, i, j - 1, id);
    }
  }

  lemma {:induction false} GrantsOnlyGrow(d: int, states: seq<State>, actions: seq<Action>, i: nat, j: nat)
    requires Run(d, states, actions) && i <= j <= |actions|
    ensures states[i].grants <= states[j].grants
  {
    if i < j {
      GrantsOnlyGrow(d, states, actions, i, j - 1);
    }
  }
}
