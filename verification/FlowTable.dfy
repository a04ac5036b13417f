// The traffic flow table seen as one flat map from five-tuple to counters,
// and what each critical section of the tracker does to it. FlowTracker.dfy
// proves that the sixteen locked shards implement exactly this.
module FlowTable {
  import Arithmetic
  import opened Addresses
  import opened Bytes
  import opened Wrappers

  const DIR_IN := 1
  const DIR_OUT := 2
  const SHARDS: nat := 16
  type Shard = i: nat | i < 16
  const TWO64: nat := 0x1_0000_0000_0000_0000

  // The client's side is src, whatever way the packet went.
  datatype Key = Key(user: int, src: string, dst: string, proto: nat, sport: nat, dport: nat)

  // Counters are int64 and wrap; times are nanoseconds.
  datatype Flow = Flow(bytesIn: int, bytesOut: int, packetsIn: int, packetsOut: int, firstSeen: int, lastSeen: int)

  function Wrap64(x: int): int {
    (x + TWO64 / 2) % TWO64 - TWO64 / 2
  }

  // ----- from packet to key -----

  datatype Header = Header(src: Word, dst: Word, proto: nat, sport: nat, dport: nat)

  function WordAt(packet: seq<Byte>, i: nat): Word
    requires i + 4 <= |packet|
  {
    BigEndianBound(packet[i..i + 4]);
    assert Power256(4) == 0x1_0000_0000;
    BigEndian(packet[i..i + 4])
  }

  function ParseHeader(packet: seq<Byte>): Option<Header> {
    if |packet| < 20 || packet[0] / 16 != 4 then None
    else
      var ihl := packet[0] % 16 * 4;
      if ihl < 20 || |packet| < ihl then None
      else
        var proto := packet[9];
        var src, dst := WordAt(packet, 12), WordAt(packet, 16);
        if proto != 6 && proto != 17 then Some(Header(src, dst, proto, 0, 0))
        else if |packet| < ihl + 4 then None
        else Some(Header(src, dst, proto, BigEndian(packet[ihl..ihl + 2]), BigEndian(packet[ihl + 2..ihl + 4])))
  }

  function KeyOf(user: int, h: Header, dir: int): Key {
    if dir == DIR_OUT then Key(user, Dotted(h.dst), Dotted(h.src), h.proto, h.dport, h.sport)
    else Key(user, Dotted(h.src), Dotted(h.dst), h.proto, h.sport, h.dport)
  }

  function PacketKey(user: int, packet: seq<Byte>, dir: int): Option<Key> {
    if user <= 0 then None
    else match ParseHeader(packet)
      case None => None
      case Some(h) => Some(KeyOf(user, h, dir))
  }

  // A header is refused for its length or version alone, and what is read from
  // it are these bytes.
  lemma HeaderBytes(packet: seq<Byte>)
    ensures ParseHeader(packet).None? <==>
              || |packet| < 20
              || packet[0] / 16 != 4
              || packet[0] % 16 < 5
              || |packet| < packet[0] % 16 * 4
              || ((packet[9] == 6 || packet[9] == 17) && |packet| < packet[0] % 16 * 4 + 4)
    ensures ParseHeader(packet).Some? ==> |packet| >= 20
    ensures ParseHeader(packet).Some? ==>
              var h := ParseHeader(packet).value;
              && h.src == 0x100_0000 * (packet[12] as int) + 0x1_0000 * (packet[13] as int)
                        + 0x100 * (packet[14] as int) + packet[15]
              && h.dst == 0x100_0000 * (packet[16] as int) + 0x1_0000 * (packet[17] as int)
                        + 0x100 * (packet[18] as int) + packet[19]
              && h.proto == packet[9]
    ensures ParseHeader(packet).Some? && (packet[9] == 6 || packet[9] == 17) ==>
              var h, at := ParseHeader(packet).value, packet[0] % 16 * 4;
              && |packet| >= at + 4
              && h.sport == 0x100 * (packet[at] as int) + packet[at + 1]
              && h.dport == 0x100 * (packet[at + 2] as int) + packet[at + 3]
    ensures ParseHeader(packet).Some? && packet[9] != 6 && packet[9] != 17 ==>
              ParseHeader(packet).value.sport == ParseHeader(packet).value.dport == 0
  {
    if ParseHeader(packet).Some? {
      FourBytes(packet[12..16]);
      FourBytes(packet[16..20]);
      var at := packet[0] % 16 * 4;
      if packet[9] == 6 || packet[9] == 17 {
        TwoBytes(packet[at..at + 2]);
        TwoBytes(packet[at + 2..at + 4]);
      }
    }
  }

  // The client's address and port are src and sport: those of the sender on the
  // way in, those of the receiver on the way out.
  lemma ClientSideIsSource(user: int, packet: seq<Byte>)
    ensures PacketKey(user, packet, DIR_IN).None? <==> user <= 0 || ParseHeader(packet).None?
    ensures PacketKey(user, packet, DIR_OUT).None? <==> user <= 0 || ParseHeader(packet).None?
    ensures PacketKey(user, packet, DIR_IN).Some? ==>
              var h := ParseHeader(packet).value;
              && PacketKey(user, packet, DIR_IN)
                   == Some(Key(user, Dotted(h.src), Dotted(h.dst), h.proto, h.sport, h.dport))
              && PacketKey(user, packet, DIR_OUT)
                   == Some(Key(user, Dotted(h.dst), Dotted(h.src), h.proto, h.dport, h.sport))
  {
  }

  predicate Reversed(h: Header, g: Header) {
    g == Header(h.dst, h.src, h.proto, h.dport, h.sport)
  }

  // An inbound packet and an outbound one share a flow exactly when the second
  // is a reply to the first; two packets in one direction share a flow exactly
  // when their five-tuples agree.
  lemma OneFlowPerConversation(user: int, packet: seq<Byte>, other: seq<Byte>)
    requires user > 0 && ParseHeader(packet).Some? && ParseHeader(other).Some?
    ensures PacketKey(user, packet, DIR_IN) == PacketKey(user, other, DIR_OUT)
       <==> Reversed(ParseHeader(packet).value, ParseHeader(other).value)
    ensures PacketKey(user, packet, DIR_IN) == PacketKey(user, other, DIR_IN)
       <==> ParseHeader(packet) == ParseHeader(other)
    ensures PacketKey(user, packet, DIR_OUT) == PacketKey(user, other, DIR_OUT)
       <==> ParseHeader(packet) == ParseHeader(other)
  {
    var h, g := ParseHeader(packet).value, ParseHeader(other).value;
    SameText(h.src, g.src);
    SameText(h.dst, g.dst);
    SameText(h.src, g.dst);
    SameText(h.dst, g.src);
  }

  lemma SameText(v: Word, w: Word)
    ensures Dotted(v) == Dotted(w) <==> v == w
  {
    if Dotted(v) == Dotted(w) {
      DottedInjective(v, w);
    }
  }

  // ----- shard selection (uint64 arithmetic) -----

  function Xor64(a: nat, b: nat): (r: nat)
    requires a < TWO64 && b < TWO64
    ensures r < TWO64
  {
    ((a as bv64) ^ (b as bv64)) as nat % TWO64
  }

  function Mix(h: nat, text: string): nat
    decreases |text|
  {
    if text == [] then h
    else Mix((h * 31 + text[0] as nat) % TWO64, text[1..])
  }

  function ShardIndex(k: Key): Shard {
    var h := Xor64(k.user % TWO64, k.proto * 0x100 % TWO64);
    var ports := Xor64(k.sport * 0x1_0000 % TWO64, k.dport * 0x1_0000_0000 % TWO64);
    Mix(Xor64(h, ports), k.dst) % SHARDS
  }

  // ----- the sections on the flat map -----

  // Nothing depends on which shard a key is given, only that it is always the
  // same one, so the placement is a parameter; the tracker passes ShardIndex.
  datatype Config = Config(ttl: int, maxPerUser: nat, every: nat, place: Key -> Shard) {
    predicate Valid() {
      ttl > 0 && maxPerUser > 0 && every > 0
    }
  }

  function Bump(f: Flow, n: nat, dir: int, now: int): Flow {
    if dir == DIR_IN then f.(lastSeen := now, bytesIn := Wrap64(f.bytesIn + n), packetsIn := Wrap64(f.packetsIn + 1))
    else f.(lastSeen := now, bytesOut := Wrap64(f.bytesOut + n), packetsOut := Wrap64(f.packetsOut + 1))
  }

  function NewFlow(now: int): Flow {
    Flow(0, 0, 0, 0, now, 0)
  }

  // Purging one shard drops that shard's keys that were last seen before cutoff.
  function Purge(place: Key -> Shard, m: map<Key, Flow>, shard: nat, cutoff: int): map<Key, Flow> {
    map k | k in m && !(place(k) == shard && m[k].lastSeen < cutoff) :: m[k]
  }

  function UserKeys(m: map<Key, Flow>, user: int): set<Key> {
    set k | k in m && k.user == user
  }

  function NextTick(tick: nat): nat {
    (tick + 1) % TWO64
  }

  function AfterPurge(cfg: Config, m: map<Key, Flow>, k: Key, tick: nat, now: int): map<Key, Flow>
    requires cfg.every > 0
  {
    if NextTick(tick) % cfg.every == 0 then Purge(cfg.place, m, cfg.place(k), now - cfg.ttl) else m
  }

  // The single-shard section: count, now and then purge, bump on a hit.
  function FastPath(cfg: Config, m: map<Key, Flow>, k: Key, n: nat, dir: int, tick: nat, now: int)
      : (map<Key, Flow>, bool)
    requires cfg.every > 0
  {
    var p := AfterPurge(cfg, m, k, tick, now);
    if k in p then (p[k := Bump(p[k], n, dir, now)], true) else (p, false)
  }

  // What a packet adds, counter by counter: int64 addition of the size and of
  // one packet in its own direction, nothing in the other.
  lemma BumpAdds(f: Flow, n: nat, dir: int, now: int)
    ensures var g := Bump(f, n, dir, now);
      && g.lastSeen == now && g.firstSeen == f.firstSeen
      && if dir == DIR_IN then
           && IsInt64Of(g.bytesIn, f.bytesIn + n) && IsInt64Of(g.packetsIn, f.packetsIn + 1)
           && g.bytesOut == f.bytesOut && g.packetsOut == f.packetsOut
         else
           && IsInt64Of(g.bytesOut, f.bytesOut + n) && IsInt64Of(g.packetsOut, f.packetsOut + 1)
           && g.bytesIn == f.bytesIn && g.packetsIn == f.packetsIn
  {
    WrapIsInt64(f.bytesIn + n);
    WrapIsInt64(f.bytesOut + n);
    WrapIsInt64(f.packetsIn + 1);
    WrapIsInt64(f.packetsOut + 1);
  }

  // w is x cut to a signed 64-bit integer.
  predicate IsInt64Of(w: int, x: int) {
    -0x8000_0000_0000_0000 <= w < 0x8000_0000_0000_0000 && (x - w) % 0x1_0000_0000_0000_0000 == 0
  }

  lemma WrapIsInt64(x: int)
    ensures IsInt64Of(Wrap64(x), x)
  {
    var half := TWO64 / 2;
    assert x - Wrap64(x) == (x + half) - (x + half) % TWO64 == (x + half) / TWO64 * TWO64;
    Arithmetic.ResidueShift(0, -((x + half) / TWO64), TWO64);
  }

  // Evicting down to less than max: the victims are the user's, as many as
  // needed, and none was seen after one of the user's flows that stay.
  ghost predicate OldestOf(m: map<Key, Flow>, user: int, victims: set<Key>) {
    && victims <= UserKeys(m, user)
    && forall v, k :: v in victims && k in UserKeys(m, user) - victims ==> m[v].lastSeen <= m[k].lastSeen
  }

  ghost predicate Evicted(m: map<Key, Flow>, after: map<Key, Flow>, user: int, max: nat) {
    exists victims: set<Key> ::
      && OldestOf(m, user, victims)
      && after == m - victims
      && |victims| == (if |UserKeys(m, user)| >= max then |UserKeys(m, user)| - max + 1 else 0)
  }

  // The all-shards section. Which of several equally old flows goes is left to
  // the map's iteration order.
  ghost predicate SlowPath(cfg: Config, m: map<Key, Flow>, after: map<Key, Flow>, k: Key, n: nat, dir: int, now: int) {
    if k in m then after == m[k := Bump(m[k], n, dir, now)]
    else exists kept ::
      && Evicted(m, kept, k.user, cfg.maxPerUser)
      && after == kept[k := Bump(NewFlow(now), n, dir, now)]
  }

  // The single-shard section, spelled out: a key stays unless it is in k's shard,
  // this packet is the every-th one there, and the key was last seen before
  // now - ttl; k is hit when it stays; nothing else changes.
  lemma FastKeeps(cfg: Config, m: map<Key, Flow>, k: Key, n: nat, dir: int, tick: nat, now: int)
    requires cfg.Valid()
    ensures var (after, hit) := FastPath(cfg, m, k, n, dir, tick, now);
      && (forall j :: j in after <==>
            && j in m
            && (|| cfg.place(j) != cfg.place(k)
                || (tick + 1) % 0x1_0000_0000_0000_0000 % cfg.every != 0
                || m[j].lastSeen >= now - cfg.ttl))
      && (hit <==> k in after)
      && forall j :: j in after ==> after[j] == if j == k then Bump(m[j], n, dir, now) else m[j]
  {
  }

  // A miss, spelled out: the new flow counts this packet alone, the flows of
  // other users stay as they are, and the user's least recently seen flows go,
  // just as many as leave room for the new one.
  lemma MissMakesRoom(cfg: Config, m: map<Key, Flow>, after: map<Key, Flow>, k: Key, n: nat, dir: int, now: int)
    requires cfg.Valid() && k !in m && SlowPath(cfg, m, after, k, n, dir, now)
    ensures k in after && CountsOnly(after[k], n, dir, now)
    ensures forall j :: j in after && j != k ==> j in m && after[j] == m[j]
    ensures forall j :: j in m && j.user != k.user ==> j in after
    ensures forall v, j :: v in m && v !in after && j in m && j in after && j.user == k.user ==>
              m[v].lastSeen <= m[j].lastSeen
    ensures |set j | j in after && j.user == k.user|
         == if |set j | j in m && j.user == k.user| < cfg.maxPerUser then |set j | j in m && j.user == k.user| + 1
            else cfg.maxPerUser
    ensures |set j | j in m && j.user == k.user| < cfg.maxPerUser ==> m.Keys <= after.Keys
  {
    var kept :| Evicted(m, kept, k.user, cfg.maxPerUser) && after == kept[k := Bump(NewFlow(now), n, dir, now)];
    FirstBump(n, dir, now);
    RoomMadeFor(m, kept, after, k, cfg.maxPerUser);
  }

  lemma RoomMadeFor(m: map<Key, Flow>, kept: map<Key, Flow>, after: map<Key, Flow>, k: Key, max: nat)
    requires max > 0 && k !in m && Evicted(m, kept, k.user, max)
    requires k in after && after == kept[k := after[k]]
    ensures forall j :: j in after && j != k ==> j in m && after[j] == m[j]
    ensures forall j :: j in m && j.user != k.user ==> j in after
    ensures forall v, j :: v in m && v !in after && j in m && j in after && j.user == k.user ==>
              m[v].lastSeen <= m[j].lastSeen
    ensures |set j | j in after && j.user == k.user|
         == if |set j | j in m && j.user == k.user| < max then |set j | j in m && j.user == k.user| + 1 else max
    ensures |set j | j in m && j.user == k.user| < max ==> m.Keys <= after.Keys
  {
    var count := |UserKeys(m, k.user)|;
    var victims :| OldestOf(m, k.user, victims) && kept == m - victims
      && |victims| == (if count >= max then count - max + 1 else 0);
    RoomForOne(m, after, k, victims);
  }

  predicate CountsOnly(f: Flow, n: nat, dir: int, now: int) {
    && f.firstSeen == f.lastSeen == now
    && if dir == DIR_IN then
         IsInt64Of(f.bytesIn, n) && f.packetsIn == 1 && f.bytesOut == f.packetsOut == 0
       else
         IsInt64Of(f.bytesOut, n) && f.packetsOut == 1 && f.bytesIn == f.packetsIn == 0
  }

  lemma FirstBump(n: nat, dir: int, now: int)
    ensures CountsOnly(Bump(NewFlow(now), n, dir, now), n, dir, now)
  {
    BumpAdds(NewFlow(now), n, dir, now);
  }

  lemma RoomForOne(m: map<Key, Flow>, after: map<Key, Flow>, k: Key, victims: set<Key>)
    requires k !in m && victims <= UserKeys(m, k.user) && after.Keys == m.Keys - victims + {k}
    ensures |set j | j in after && j.user == k.user| == |set j | j in m && j.user == k.user| - |victims| + 1
    ensures UserKeys(m, k.user) == set j | j in m && j.user == k.user
  {
    var mine, left := UserKeys(m, k.user), UserKeys(m, k.user) - victims;
    assert mine == left + victims && left !! victims;
    assert (set j | j in m && j.user == k.user) == mine;
    assert (set j | j in after && j.user == k.user) == left + {k};
  }

  // Of the flows of other users only those have gone that the purge takes for
  // their age, and the rest are as before.
  ghost predicate OthersOnlyPurged(cfg: Config, m: map<Key, Flow>, after: map<Key, Flow>, k: Key, tick: nat, now: int)
    requires cfg.every > 0
  {
    && (forall j: Key :: j.user != k.user ==>
          (j in after <==>
            && j in m
            && (|| cfg.place(j) != cfg.place(k)
                || (tick + 1) % 0x1_0000_0000_0000_0000 % cfg.every != 0
                || m[j].lastSeen >= now - cfg.ttl)))
    && (forall j: Key :: j.user != k.user && j in after && j in m ==> after[j] == m[j])
  }

  // A whole observation of k: k is in the table afterwards.
  lemma ObservedAndOthersKept(cfg: Config, m: map<Key, Flow>, after: map<Key, Flow>, k: Key,
                              n: nat, dir: int, tick: nat, now: int)
    requires cfg.Valid()
    requires var fast := FastPath(cfg, m, k, n, dir, tick, now);
             if fast.1 then after == fast.0 else SlowPath(cfg, fast.0, after, k, n, dir, now)
    ensures k in after && after[k].lastSeen == now
    ensures OthersOnlyPurged(cfg, m, after, k, tick, now)
  {
    FastKeeps(cfg, m, k, n, dir, tick, now);
    var (fast, hit) := FastPath(cfg, m, k, n, dir, tick, now);
    if hit {
      BumpAdds(m[k], n, dir, now);
    } else {
      MissMakesRoom(cfg, fast, after, k, n, dir, now);
    }
  }
}
