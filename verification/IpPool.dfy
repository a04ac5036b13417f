// The pool of VPN addresses: a cursor kept as address bytes, an owner for each
// address handed out, and addresses set aside. An address is the number its
// bytes spell; the program's keys are the printed forms.
module IpPool {
  import opened Arithmetic
  import opened Bytes
  import opened Wrappers

  type Peer = int   // 0 holds an address without owning it

  const PROBES: nat := 256

  // A subnet in addresses of `width` bytes: 4 for IPv4, 16 for IPv6.
  datatype RawSubnet = Subnet(width: nat, net: nat, len: nat) {
    function Size(): (r: nat)
      ensures r > 0
    {
      Power256(width)
    }

    predicate Valid() {
      len <= 8 * width && net < Size() && net % Pow2(8 * width - len) == 0
    }

    predicate Contains(a: nat)
      requires Valid()
    {
      a / Pow2(8 * width - len) == net / Pow2(8 * width - len)
    }
  }

  type Subnet = s: RawSubnet | s.Valid() witness Subnet(0, 0, 0)

  // The addresses of a subnet are a block that starts at net.
  lemma SubnetIsRange(sub: Subnet, a: nat)
    ensures sub.Contains(a) <==> sub.net <= a < sub.net + Pow2(8 * sub.width - sub.len)
  {
    var block := Pow2(8 * sub.width - sub.len);
    var q := sub.net / block;
    assert sub.net == q * block && a == a / block * block + a % block;
    DivideProduct(q, 0, block);
    if sub.net <= a < sub.net + block {
      DivideProduct(q, a - sub.net, block);
    }
  }

  datatype State = State(next: nat, owners: map<nat, Peer>, reserved: set<nat>)

  datatype PoolError = NotInPool | AlreadyAllocated | NoFreeAddress

  function New(sub: Subnet): State {
    State((sub.net + 1) % sub.Size(), map[], {})
  }

  predicate Usable(sub: Subnet, s: State, a: nat) {
    a !in s.reserved && (a !in s.owners || s.owners[a] == 0) && sub.Contains(a)
  }

  // The address the cursor reaches in k increments.
  function Probe(sub: Subnet, s: State, k: nat): nat {
    (s.next + k) % sub.Size()
  }

  ghost predicate FirstUsable(sub: Subnet, s: State, k: nat) {
    k < PROBES && Usable(sub, s, Probe(sub, s, k)) && forall j :: 0 <= j < k ==> !Usable(sub, s, Probe(sub, s, j))
  }

  // What Allocate does: the first usable address of the next 256, or none of
  // them; the cursor goes past everything it looked at.
  ghost predicate Allocates(sub: Subnet, s: State, peer: Peer, t: State, r: Result<nat, PoolError>) {
    match r
    case Ok(a) =>
      exists k: nat :: FirstUsable(sub, s, k) && a == Probe(sub, s, k)
                  && t == State(Probe(sub, s, k + 1), s.owners[a := peer], s.reserved)
    case Err(e) =>
      && e == NoFreeAddress && t == s.(next := Probe(sub, s, PROBES))
      && forall j :: 0 <= j < PROBES ==> !Usable(sub, s, Probe(sub, s, j))
  }

  // ip is None when the text is no address.
  function Specific(sub: Subnet, s: State, ip: Option<nat>, peer: Peer): (State, Option<PoolError>) {
    if ip.None? || !sub.Contains(ip.value) then (s, Some(NotInPool))
    else if ip.value in s.reserved then (s, Some(AlreadyAllocated))
    else if ip.value in s.owners && s.owners[ip.value] != 0 && s.owners[ip.value] != peer
        then (s, Some(AlreadyAllocated))
    else (s.(owners := s.owners[ip.value := peer]), None)
  }

  // ----- the increment -----

  lemma {:induction false} AllOnes(bytes: seq<Byte>)
    requires forall i :: 0 <= i < |bytes| ==> bytes[i] == 255
    ensures BigEndian(bytes) == Power256(|bytes|) - 1
  {
    if bytes != [] {
      AllOnes(bytes[..|bytes| - 1]);
    }
  }

  lemma {:induction false} AllZeros(bytes: seq<Byte>)
    requires forall i :: 0 <= i < |bytes| ==> bytes[i] == 0
    ensures BigEndian(bytes) == 0
  {
    if bytes != [] {
      AllZeros(bytes[..|bytes| - 1]);
    }
  }

  // bytes' is bytes with a tail of 255s turned to 0 and the byte before it, if
  // there is one, raised by one.
  predicate Carried(bytes: seq<Byte>, bytes': seq<Byte>, j: int) {
    && -1 <= j < |bytes| == |bytes'|
    && (forall i :: j < i < |bytes| ==> bytes[i] == 255 && bytes'[i] == 0)
    && (j >= 0 ==> bytes'[j] as int == bytes[j] as int + 1)
    && (forall i :: 0 <= i < j ==> bytes'[i] == bytes[i])
  }

  // The bytes up to and with the raised one, then the 255s.
  lemma CarriedParts(bytes: seq<Byte>, bytes': seq<Byte>, j: nat)
    requires Carried(bytes, bytes', j)
    ensures BigEndian(bytes') == BigEndian(bytes) + 1
  {
    var hi, lo := bytes[..j + 1], bytes[j + 1..];
    var hi', lo' := bytes'[..j + 1], bytes'[j + 1..];
    SplitAt(bytes, hi, lo);
    SplitAt(bytes', hi', lo');
    AllOnes(lo);
    AllZeros(lo');
    LastRaised(hi, hi');
    OneMore(BigEndian(bytes), BigEndian(hi), BigEndian(lo), BigEndian(bytes'), BigEndian(hi'), BigEndian(lo'),
        Power256(|lo|));
  }

  lemma SplitAt(bytes: seq<Byte>, hi: seq<Byte>, lo: seq<Byte>)
    requires |hi| <= |bytes| && hi == bytes[..|hi|] && lo == bytes[|hi|..]
    ensures BigEndian(bytes) == BigEndian(hi) * Power256(|lo|) + BigEndian(lo)
  {
    assert bytes == hi + lo;
    BigEndianSplit(hi, lo);
  }

  lemma OneMore(v: nat, h: nat, l: nat, v': nat, h': nat, l': nat, p: nat)
    requires v == h * p + l && v' == h' * p + l'
    requires h' == h + 1 && l + 1 == p && l' == 0
    ensures v' == v + 1
  {
    OneMoreTimes(h, p);
  }

  lemma LastRaised(hi: seq<Byte>, hi': seq<Byte>)
    requires |hi| == |hi'| > 0 && hi'[|hi| - 1] as int == hi[|hi| - 1] as int + 1
    requires forall i :: 0 <= i < |hi| - 1 ==> hi'[i] == hi[i]
    ensures BigEndian(hi') == BigEndian(hi) + 1
  {
    assert hi[..|hi| - 1] == hi'[..|hi| - 1];
  }

  lemma OneMoreTimes(h: nat, p: nat)
    ensures (h + 1) * p == h * p + p
  {
  }

  lemma CarriedIsNext(bytes: seq<Byte>, bytes': seq<Byte>, j: int)
    requires Carried(bytes, bytes', j)
    ensures BigEndian(bytes') == (BigEndian(bytes) + 1) % Power256(|bytes|)
  {
    if j < 0 {
      AllOnes(bytes);
      AllZeros(bytes');
      DivideProduct(1, 0, Power256(|bytes|));
    } else {
      CarriedParts(bytes, bytes', j);
      BigEndianBound(bytes');
      DivideProduct(0, BigEndian(bytes'), Power256(|bytes|));
    }
  }

  // incIP: add one from the last byte up until no byte wraps.
  method IncIP(ip: array<Byte>)
    modifies ip
    ensures BigEndian(ip[..]) == (BigEndian(old(ip[..])) + 1) % Power256(ip.Length)
  {
    ghost var was := ip[..];
    var j := ip.Length - 1;
    while j >= 0
      invariant -1 <= j < ip.Length
      invariant forall i :: j < i < ip.Length ==> was[i] == 255 && ip[i] == 0
      invariant forall i :: 0 <= i <= j ==> ip[i] == was[i]
    {
      var b: nat := ip[j];
      ip[j] := (b + 1) % 256;
      if ip[j] != 0 {
        break;
      }
      j := j - 1;
    }
    CarriedIsNext(was, ip[..], j);
  }

  // ----- the pool -----

  class Pool {
    const sub: Subnet
    const next: array<Byte>
    var owners: map<nat, Peer>
    var reserved: set<nat>

    ghost predicate Valid()
      reads this
    {
      next.Length == sub.width
    }

    ghost function View(): State
      reads this, next
    {
      State(BigEndian(next[..]), owners, reserved)
    }

    constructor (sub: Subnet)
      ensures Valid() && fresh(next) && this.sub == sub && View() == New(sub)
    {
      var start := AddressBytes(sub.net, sub.width);
      EncodeDecode(sub.net, sub.width);
      IncIP(start);
      this.sub, next := sub, start;
      owners, reserved := map[], {};
    }

    method Reserve(a: nat)
      modifies this`reserved
      ensures View() == old(View()).(reserved := old(reserved) + {a})
    {
      reserved := reserved + {a};
    }

    method Advance()
      requires Valid()
      modifies next
      ensures View() == old(View()).(next := (old(View()).next + 1) % sub.Size())
    {
      IncIP(next);
    }

    // Take the address under the cursor if it is usable; step past it either way.
    method TryNext(peer: Peer) returns (ip: Option<nat>)
      requires Valid()
      modifies this`owners, next
      ensures var s := old(View());
              && ip == (if Usable(sub, s, s.next) then Some(s.next) else None)
              && View() == State((s.next + 1) % sub.Size(),
                                 if ip.Some? then s.owners[s.next := peer] else s.owners, s.reserved)
    {
      var at := Read(next);
      Advance();
      if at !in reserved && (at !in owners || owners[at] == 0) && sub.Contains(at) {
        owners := owners[at := peer];
        return Some(at);
      }
      return None;
    }

    method Allocate(peer: Peer) returns (r: Result<nat, PoolError>)
      requires Valid()
      modifies this`owners, next
      ensures Valid() && Allocates(sub, old(View()), peer, View(), r)
    {
      ghost var s := View();
      BigEndianBound(next[..]);
      DivideProduct(0, s.next, sub.Size());
      assert Probe(sub, s, 0) == s.next;
      for i := 0 to PROBES
        invariant Valid() && next.Length == sub.width
        invariant View() == s.(next := Probe(sub, s, i))
        invariant forall j :: 0 <= j < i ==> !Usable(sub, s, Probe(sub, s, j))
      {
        NextProbe(sub, s, i);
        var ip := TryNext(peer);
        if ip.Some? {
          assert FirstUsable(sub, s, i);
          return Ok(ip.value);
        }
      }
      return Err(NoFreeAddress);
    }

    method AllocateSpecific(ip: Option<nat>, peer: Peer) returns (error: Option<PoolError>)
      modifies this`owners
      ensures (View(), error) == Specific(sub, old(View()), ip, peer)
    {
      if ip.None? || !sub.Contains(ip.value) {
        return Some(NotInPool);
      }
      if ip.value in reserved {
        return Some(AlreadyAllocated);
      }
      if ip.value in owners && owners[ip.value] != 0 && owners[ip.value] != peer {
        return Some(AlreadyAllocated);
      }
      owners := owners[ip.value := peer];
      return None;
    }

    method Release(a: nat)
      modifies this`owners
      ensures View() == old(View()).(owners := old(owners) - {a})
    {
      owners := owners - {a};
    }
  }

  method AddressBytes(n: nat, width: nat) returns (bytes: array<Byte>)
    ensures fresh(bytes) && bytes[..] == ToBigEndian(n, width)
  {
    bytes := new Byte[width](i requires 0 <= i < width => ToBigEndian(n, width)[i]);
  }

  // The number an address array spells.
  method Read(bytes: array<Byte>) returns (n: nat)
    ensures n == BigEndian(bytes[..])
  {
    n := 0;
    for i := 0 to bytes.Length
      invariant n == BigEndian(bytes[..i])
    {
      assert bytes[..i + 1][..i] == bytes[..i];
      n := n * 256 + bytes[i];
    }
    assert bytes[..bytes.Length] == bytes[..];
  }

  lemma NextProbe(sub: Subnet, s: State, k: nat)
    ensures Probe(sub, s, k + 1) == (Probe(sub, s, k) + 1) % sub.Size()
  {
    NextResidue(s.next + k, sub.Size());
  }
}
