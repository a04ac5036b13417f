// The sharded tracker: sixteen maps with a tick counter each, updated in place
// by the critical sections of ObservePacket and List. Every method is proved
// against the flat map of FlowTable.dfy, for every map iteration order.
module FlowTracker {
  import Bytes
  import opened FlowTable
  import opened Wrappers

  // Every key sits in its own shard.
  ghost predicate Placed(place: Key -> Shard, shards: seq<map<Key, Flow>>) {
    |shards| == SHARDS && forall i, k :: 0 <= i < SHARDS && k in shards[i] ==> place(k) == i
  }

  ghost function Keys(shards: seq<map<Key, Flow>>): set<Key> {
    set i, k | 0 <= i < |shards| && k in shards[i] :: k
  }

  ghost function Flat(place: Key -> Shard, shards: seq<map<Key, Flow>>): (m: map<Key, Flow>)
    requires |shards| == SHARDS
    ensures forall k :: k in m <==> k in shards[place(k)]
    ensures forall k :: k in m ==> m[k] == shards[place(k)][k]
  {
    map k | k in Keys(shards) && k in shards[place(k)] :: shards[place(k)][k]
  }

  // The user's keys in shards below i.
  ghost function UserKeysBelow(place: Key -> Shard, m: map<Key, Flow>, user: int, i: nat): set<Key> {
    set k | k in m && k.user == user && place(k) < i
  }

  ghost function OwnedBy(keys: set<Key>, user: int): set<Key> {
    set k | k in keys && k.user == user
  }

  lemma OwnedByAdd(keys: set<Key>, k: Key, user: int)
    requires k !in keys
    ensures |OwnedBy(keys + {k}, user)| == |OwnedBy(keys, user)| + if k.user == user then 1 else 0
  {
    var more := OwnedBy(keys + {k}, user);
    assert more == if k.user == user then OwnedBy(keys, user) + {k} else OwnedBy(keys, user);
  }

  // The user's keys, shard by shard.
  lemma NextShard(place: Key -> Shard, shards: seq<map<Key, Flow>>, user: int, i: nat)
    requires Placed(place, shards) && i < SHARDS
    ensures UserKeysBelow(place, Flat(place, shards), user, i + 1)
         == UserKeysBelow(place, Flat(place, shards), user, i) + OwnedBy(shards[i].Keys, user)
    ensures UserKeysBelow(place, Flat(place, shards), user, i) !! OwnedBy(shards[i].Keys, user)
    ensures UserKeysBelow(place, Flat(place, shards), user, 0) == {}
    ensures UserKeysBelow(place, Flat(place, shards), user, SHARDS) == UserKeys(Flat(place, shards), user)
  {
  }

  // Rewriting one shard changes the flat map there and nowhere else.
  lemma RewriteShard(place: Key -> Shard, shards: seq<map<Key, Flow>>, i: nat, shard: map<Key, Flow>)
    requires Placed(place, shards) && i < SHARDS
    requires forall k :: k in shard ==> place(k) == i
    ensures Placed(place, shards[i := shard])
    ensures forall k :: k in Flat(place, shards[i := shard]) <==>
                        if place(k) == i then k in shard else k in Flat(place, shards)
    ensures forall k :: k in Flat(place, shards[i := shard]) ==>
                        Flat(place, shards[i := shard])[k] == if place(k) == i then shard[k] else Flat(place, shards)[k]
  {
  }

  lemma EmptyTable(place: Key -> Shard, shards: seq<map<Key, Flow>>)
    requires |shards| == SHARDS && forall i :: 0 <= i < SHARDS ==> shards[i] == map[]
    ensures Placed(place, shards) && Flat(place, shards) == map[]
  {
  }

  lemma PutKey(place: Key -> Shard, shards: seq<map<Key, Flow>>, k: Key, f: Flow)
    requires Placed(place, shards)
    ensures var after := shards[place(k) := shards[place(k)][k := f]];
            Placed(place, after) && Flat(place, after) == Flat(place, shards)[k := f]
  {
    RewriteShard(place, shards, place(k), shards[place(k)][k := f]);
  }

  lemma DeleteKey(place: Key -> Shard, shards: seq<map<Key, Flow>>, k: Key)
    requires Placed(place, shards)
    ensures var after := shards[place(k) := shards[place(k)] - {k}];
            Placed(place, after) && Flat(place, after) == Flat(place, shards) - {k}
  {
    RewriteShard(place, shards, place(k), shards[place(k)] - {k});
  }

  ghost function NotBefore(shard: map<Key, Flow>, todo: set<Key>, cutoff: int): map<Key, Flow> {
    map k | k in shard && (k in todo || shard[k].lastSeen >= cutoff) :: shard[k]
  }

  lemma PurgeKeys(place: Key -> Shard, shards: seq<map<Key, Flow>>, i: nat, cutoff: int)
    requires Placed(place, shards) && i < SHARDS
    ensures var after := shards[i := NotBefore(shards[i], {}, cutoff)];
            Placed(place, after) && Flat(place, after) == Purge(place, Flat(place, shards), i, cutoff)
  {
    RewriteShard(place, shards, i, NotBefore(shards[i], {}, cutoff));
  }

  // strings.Contains
  predicate Contains(text: string, part: string) {
    exists i :: 0 <= i <= |text| && part <= text[i..]
  }

  // The address parts come trimmed.
  datatype Filter = Filter(user: int, proto: int, src: string, dst: string) {
    predicate Accepts(k: Key) {
      && !(user > 0 && k.user != user)
      && !(proto > 0 && k.proto != proto)
      && !(src != "" && !Contains(k.src, src))
      && !(dst != "" && !Contains(k.dst, dst))
    }
  }

  class Tracker {
    const byKey: array<map<Key, Flow>>
    const observeN: array<nat>
    const cfg: Config

    ghost predicate Valid()
      reads byKey
    {
      && byKey.Length == SHARDS
      && observeN.Length == SHARDS
      && cfg.Valid()
      && Placed(cfg.place, byKey[..])
    }

    ghost function Table(): map<Key, Flow>
      requires byKey.Length == SHARDS && cfg.Valid()
      reads byKey
    {
      Flat(cfg.place, byKey[..])
    }

    constructor (ttl: int, maxPerUser: int, observeTTLEvery: int)
      ensures Valid() && fresh(byKey) && fresh(observeN)
      ensures Table() == map[]
      ensures forall i :: 0 <= i < SHARDS ==> observeN[i] == 0
      ensures cfg == Config(if ttl <= 0 then 600_000_000_000 else ttl,
                            if maxPerUser <= 0 then 512 else maxPerUser,
                            if observeTTLEvery <= 0 then 256 else observeTTLEvery,
                            ShardIndex)
    {
      byKey := new map<Key, Flow>[SHARDS](_ => map[]);
      observeN := new nat[SHARDS](_ => 0);
      cfg := Config(if ttl <= 0 then 600_000_000_000 else ttl,
                    if maxPerUser <= 0 then 512 else maxPerUser,
                    if observeTTLEvery <= 0 then 256 else observeTTLEvery,
                    ShardIndex);
      new;
      EmptyTable(cfg.place, byKey[..]);
    }

    method PurgeShardTTL(shard: nat, cutoff: int)
      requires Valid() && shard < SHARDS
      modifies byKey
      ensures Valid()
      ensures Table() == Purge(cfg.place, old(Table()), shard, cutoff)
      ensures forall j :: j in Table() <==>
                j in old(Table()) && (cfg.place(j) != shard || old(Table())[j].lastSeen >= cutoff)
      ensures forall j :: j in Table() ==> Table()[j] == old(Table())[j]
    {
      ghost var shards, was := byKey[..], byKey[shard];
      var todo := byKey[shard].Keys;
      while todo != {}
        invariant byKey.Length == SHARDS && todo <= byKey[shard].Keys
        invariant byKey[..] == shards[shard := byKey[shard]]
        invariant byKey[shard] == NotBefore(was, todo, cutoff)
        decreases todo
      {
        var k :| k in todo;
        todo := todo - {k};
        if byKey[shard][k].lastSeen < cutoff {
          byKey[shard] := byKey[shard] - {k};
        }
      }
      PurgeKeys(cfg.place, shards, shard, cutoff);
    }

    method CountShard(i: nat, user: int) returns (n: nat)
      requires byKey.Length == SHARDS && i < SHARDS
      ensures n == |OwnedBy(byKey[i].Keys, user)|
    {
      n := 0;
      var todo := byKey[i].Keys;
      ghost var done: set<Key> := {};
      while todo != {}
        invariant todo + done == byKey[i].Keys && todo !! done
        invariant n == |OwnedBy(done, user)|
        decreases todo
      {
        var k :| k in todo;
        todo := todo - {k};
        OwnedByAdd(done, k, user);
        done := done + {k};
        if k.user == user {
          n := n + 1;
        }
      }
      assert done == byKey[i].Keys;
    }

    method CountUser(user: int) returns (n: nat)
      requires Valid()
      ensures n == |UserKeys(Table(), user)|
    {
      ghost var shards, m := byKey[..], Table();
      NextShard(cfg.place, shards, user, 0);
      n := 0;
      for i := 0 to SHARDS
        invariant byKey[..] == shards
        invariant n == |UserKeysBelow(cfg.place, m, user, i)|
      {
        NextShard(cfg.place, shards, user, i);
        var more := CountShard(i, user);
        n := n + more;
      }
    }

    // Deletes one of the user's flows with the earliest lastSeen, if any.
    method EvictOldestUser(user: int) returns (evicted: bool)
      requires Valid()
      modifies byKey
      ensures Valid()
      ensures evicted <==> UserKeys(old(Table()), user) != {}
      ensures !evicted ==> Table() == old(Table())
      ensures evicted ==> exists v :: OldestOf(old(Table()), user, {v}) && Table() == old(Table()) - {v}
    {
      var oldest := FindOldest(user);
      if oldest.None? {
        return false;
      }
      var v := oldest.value;
      ghost var shards := byKey[..];
      DeleteKey(cfg.place, shards, v);
      byKey[cfg.place(v)] := byKey[cfg.place(v)] - {v};
      assert byKey[..] == shards[cfg.place(v) := shards[cfg.place(v)] - {v}];
      return true;
    }

    method FindOldest(user: int) returns (oldest: Option<Key>)
      requires Valid()
      ensures oldest.None? ==> UserKeys(Table(), user) == {}
      ensures oldest.Some? ==> OldestOf(Table(), user, {oldest.value})
      ensures oldest.Some? ==> oldest.value in Table() && oldest.value.user == user
      ensures forall k :: oldest.Some? && k in Table() && k.user == user ==>
                Table()[oldest.value].lastSeen <= Table()[k].lastSeen
    {
      ghost var shards, m := byKey[..], Table();
      oldest := None;
      NextShard(cfg.place, shards, user, 0);
      for i := 0 to SHARDS
        invariant byKey[..] == shards
        invariant OldestAmong(m, UserKeysBelow(cfg.place, m, user, i), oldest)
      {
        NextShard(cfg.place, shards, user, i);
        oldest := OldestInShard(i, user, oldest, UserKeysBelow(cfg.place, m, user, i));
      }
    }

    method OldestInShard(i: nat, user: int, best: Option<Key>, ghost seen: set<Key>) returns (oldest: Option<Key>)
      requires Valid() && i < SHARDS
      requires seen <= Table().Keys && OldestAmong(Table(), seen, best)
      ensures OldestAmong(Table(), seen + OwnedBy(byKey[i].Keys, user), oldest)
    {
      ghost var shards, m := byKey[..], Table();
      oldest := best;
      var todo := byKey[i].Keys;
      ghost var done: set<Key> := {};
      assert seen + OwnedBy(done, user) == seen;
      while todo != {}
        invariant byKey[..] == shards && todo + done == byKey[i].Keys
        invariant OldestAmong(m, seen + OwnedBy(done, user), oldest)
        decreases todo
      {
        var k :| k in todo;
        todo := todo - {k};
        done := done + {k};
        if k.user == user {
          if oldest.None? || byKey[i][k].lastSeen < byKey[cfg.place(oldest.value)][oldest.value].lastSeen {
            oldest := Some(k);
          }
        }
      }
      assert done == byKey[i].Keys;
    }

    method BumpFlow(k: Key, n: nat, dir: int, now: int)
      requires Valid() && k in Table()
      modifies byKey
      ensures Valid()
      ensures Table() == old(Table())[k := Bump(old(Table())[k], n, dir, now)]
    {
      InsertFlow(k, Bump(byKey[cfg.place(k)][k], n, dir, now));
    }

    // The section of ObservePacket under one shard's lock.
    method ObserveFast(k: Key, n: nat, dir: int, now: int) returns (hit: bool)
      requires Valid()
      modifies byKey, observeN
      ensures Valid()
      ensures (Table(), hit) == FastPath(cfg, old(Table()), k, n, dir, old(observeN[cfg.place(k)]), now)
      ensures observeN[..] == old(observeN[..])[cfg.place(k) := NextTick(old(observeN[cfg.place(k)]))]
      ensures forall j :: j in Table() <==>
                && j in old(Table())
                && (|| cfg.place(j) != cfg.place(k)
                    || (old(observeN[cfg.place(k)]) + 1) % 0x1_0000_0000_0000_0000 % cfg.every != 0
                    || old(Table())[j].lastSeen >= now - cfg.ttl)
      ensures hit <==> k in Table()
      ensures forall j :: j in Table() ==>
                Table()[j] == if j == k then Bump(old(Table())[j], n, dir, now) else old(Table())[j]
    {
      FastKeeps(cfg, Table(), k, n, dir, observeN[cfg.place(k)], now);
      var i := cfg.place(k);
      observeN[i] := NextTick(observeN[i]);
      if observeN[i] % cfg.every == 0 {
        PurgeShardTTL(i, now - cfg.ttl);
      }
      assert Table() == AfterPurge(cfg, old(Table()), k, old(observeN[i]), now);
      hit := k in byKey[i];
      if hit {
        BumpFlow(k, n, dir, now);
      }
    }

    // The section of ObservePacket under all the locks.
    method ObserveSlow(k: Key, n: nat, dir: int, now: int)
      requires Valid()
      modifies byKey
      ensures Valid()
      ensures SlowPath(cfg, old(Table()), Table(), k, n, dir, now)
    {
      if k in byKey[cfg.place(k)] {
        BumpFlow(k, n, dir, now);
        return;
      }
      ghost var m := Table();
      EvictToFit(k.user);
      ghost var kept := Table();
      InsertFlow(k, NewFlow(now));
      BumpFlow(k, n, dir, now);
      MissInserts(cfg, m, kept, Table(), k, n, dir, now);
    }

    method InsertFlow(k: Key, f: Flow)
      requires Valid()
      modifies byKey
      ensures Valid()
      ensures Table() == old(Table())[k := f]
    {
      var i := cfg.place(k);
      PutKey(cfg.place, byKey[..], k, f);
      byKey[i] := byKey[i][k := f];
      assert byKey[..] == old(byKey[..])[i := byKey[i]];
    }

    method EvictToFit(user: int)
      requires Valid()
      modifies byKey
      ensures Valid()
      ensures Evicted(old(Table()), Table(), user, cfg.maxPerUser)
    {
      ghost var m := Table();
      ghost var victims: set<Key> := {};
      assert m - victims == m;
      var count := CountUser(user);
      while count >= cfg.maxPerUser
        invariant Valid()
        invariant OldestOf(m, user, victims)
        invariant Table() == m - victims
        invariant count == |UserKeys(Table(), user)|
        invariant |victims| + count == |UserKeys(m, user)|
        invariant victims == {} || count >= cfg.maxPerUser - 1
        decreases count
      {
        ghost var before := Table();
        var evicted := EvictOldestUser(user);
        assert evicted;
        ghost var v :| OldestOf(before, user, {v}) && Table() == before - {v};
        OneMoreVictim(m, user, victims, before, v);
        victims := victims + {v};
        count := CountUser(user);
      }
    }

    // Both sections in a row, with nobody in between.
    method ObservePacket(user: int, packet: seq<Bytes.Byte>, dir: int, now: int)
      requires Valid()
      modifies byKey, observeN
      ensures Valid()
      ensures PacketKey(user, packet, dir).None? ==> Table() == old(Table()) && observeN[..] == old(observeN[..])
      ensures PacketKey(user, packet, dir).Some? ==>
        var k := PacketKey(user, packet, dir).value;
        var fast := FastPath(cfg, old(Table()), k, |packet|, dir, old(observeN[cfg.place(k)]), now);
        if fast.1 then Table() == fast.0
        else SlowPath(cfg, fast.0, Table(), k, |packet|, dir, now)
      // The packet's key is in the table afterwards, and a key of another user
      // leaves it for one reason only.
      ensures PacketKey(user, packet, dir).Some? ==>
        var k := PacketKey(user, packet, dir).value;
        && k in Table() && Table()[k].lastSeen == now
        && OthersOnlyPurged(cfg, old(Table()), Table(), k, old(observeN[cfg.place(k)]), now)
    {
      var parsed := PacketKey(user, packet, dir);
      if parsed.None? {
        return;
      }
      var k := parsed.value;
      ghost var m, tick := Table(), observeN[cfg.place(k)];
      var hit := ObserveFast(k, |packet|, dir, now);
      if !hit {
        ObserveSlow(k, |packet|, dir, now);
      }
      ObservedAndOthersKept(cfg, m, Table(), k, |packet|, dir, tick, now);
    }

    // List's section under one shard's lock: purge, and copy what passes.
    method ListShard(shard: nat, cutoff: int, filter: Filter) returns (all: map<Key, Flow>)
      requires Valid() && shard < SHARDS
      modifies byKey
      ensures Valid()
      ensures Table() == Purge(cfg.place, old(Table()), shard, cutoff)
      ensures all == map k | k in Table() && cfg.place(k) == shard && filter.Accepts(k) :: Table()[k]
    {
      PurgeShardTTL(shard, cutoff);
      all := Copy(byKey[shard], filter);
      assert forall k :: k in byKey[shard] <==> k in Table() && cfg.place(k) == shard;
    }
  }

  method Copy(flows: map<Key, Flow>, filter: Filter) returns (all: map<Key, Flow>)
    ensures all == map k | k in flows && filter.Accepts(k) :: flows[k]
  {
    var todo := flows.Keys;
    all := map[];
    while todo != {}
      invariant todo <= flows.Keys
      invariant all == map k | k in flows && k !in todo && filter.Accepts(k) :: flows[k]
      decreases todo
    {
      var k :| k in todo;
      todo := todo - {k};
      if filter.Accepts(k) {
        all := all[k := flows[k]];
      }
    }
  }

  lemma MissInserts(cfg: Config, m: map<Key, Flow>, kept: map<Key, Flow>, after: map<Key, Flow>,
                    k: Key, n: nat, dir: int, now: int)
    requires k !in m && Evicted(m, kept, k.user, cfg.maxPerUser)
    requires after == kept[k := NewFlow(now)][k := Bump(NewFlow(now), n, dir, now)]
    ensures SlowPath(cfg, m, after, k, n, dir, now)
  {
    assert after == kept[k := Bump(NewFlow(now), n, dir, now)];
  }

  ghost predicate OldestAmong(m: map<Key, Flow>, keys: set<Key>, oldest: Option<Key>) {
    match oldest
    case None => keys == {}
    case Some(v) => v in keys && v in m && forall k :: k in keys ==> k in m && m[v].lastSeen <= m[k].lastSeen
  }

  // The next victim is as old as whatever stays, and as young as those before.
  lemma OneMoreVictim(m: map<Key, Flow>, user: int, victims: set<Key>, before: map<Key, Flow>, v: Key)
    requires OldestOf(m, user, victims) && before == m - victims
    requires OldestOf(before, user, {v})
    ensures OldestOf(m, user, victims + {v})
    ensures before - {v} == m - (victims + {v})
    ensures v !in victims && |victims + {v}| == |victims| + 1
    ensures |UserKeys(before - {v}, user)| == |UserKeys(before, user)| - 1
  {
    assert v in {v};
    assert UserKeys(before, user) == UserKeys(m, user) - victims;
    assert UserKeys(before - {v}, user) == UserKeys(before, user) - {v};
  }
}
