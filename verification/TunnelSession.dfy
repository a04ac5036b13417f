// One direction of the encrypted tunnel: Encrypt numbers packets, Decrypt
// refuses a number it has already taken. The cipher is an ideal AEAD.
module TunnelSession {
  import opened Bytes
  import opened ReplayWindow
  import opened Wrappers

  const NONCE: nat := 12
  const COUNTERS: nat := 0x1_0000_0000_0000_0000
  const LIMIT: nat := COUNTERS - 1

  datatype Aead = Aead(
    overhead: nat,
    seal: (seq<Byte>, seq<Byte>) -> seq<Byte>,
    open: (seq<Byte>, seq<Byte>) -> Option<seq<Byte>>)

  // What sealing produced opens to what went in.
  ghost predicate Correct(a: Aead) {
    forall n, p :: |a.seal(n, p)| == |p| + a.overhead && a.open(n, a.seal(n, p)) == Some(p)
  }

  datatype Tunnel = Tunnel(aead: Aead, shape: Shape)

  datatype Failure = TooShort | Replay(counter: nat) | OpenFailed(counter: nat)

  function CounterToNonce(counter: nat): (nonce: seq<Byte>)
    ensures |nonce| == NONCE
  {
    [0, 0, 0, 0] + ToBigEndian(counter, 8)
  }

  function NonceToCounter(nonce: seq<Byte>): nat {
    if |nonce| < 12 then 0 else BigEndian(nonce[4..12])
  }

  lemma Power256Of8()
    ensures Power256(8) == COUNTERS
  {
    assert Power256(4) == 0x1_0000_0000;
    assert Power256(8) == 256 * 256 * 256 * 256 * Power256(4);
  }

  lemma NonceRoundTrip(counter: nat)
    requires counter < COUNTERS
    ensures NonceToCounter(CounterToNonce(counter)) == counter
  {
    Power256Of8();
    EncodeDecode(counter, 8);
    assert CounterToNonce(counter)[4..12] == ToBigEndian(counter, 8);
  }

  // The other way round: the nonce of a counter is the one with zeros in front.
  lemma CounterRoundTrip(nonce: seq<Byte>)
    requires |nonce| == NONCE
    ensures NonceToCounter(nonce) < COUNTERS
    ensures CounterToNonce(NonceToCounter(nonce)) == nonce <==> nonce[..4] == [0, 0, 0, 0]
  {
    var low := nonce[4..12];
    Power256Of8();
    BigEndianBound(low);
    DecodeEncode(low);
    assert nonce == nonce[..4] + low;
  }

  function Counter(packet: seq<Byte>): nat {
    if |packet| < NONCE then 0 else NonceToCounter(packet[..NONCE])
  }

  // The packet that carries a plaintext under a counter.
  function Wire(a: Aead, counter: nat, plaintext: seq<Byte>): seq<Byte> {
    var nonce := CounterToNonce(counter);
    nonce + a.seal(nonce, plaintext)
  }

  predicate Authentic(a: Aead, packet: seq<Byte>) {
    |packet| >= NONCE + a.overhead && a.open(packet[..NONCE], packet[NONCE..]).Some?
  }

  lemma WireOpens(a: Aead, counter: nat, plaintext: seq<Byte>)
    requires Correct(a) && counter < COUNTERS
    ensures var packet := Wire(a, counter, plaintext);
            && Authentic(a, packet)
            && Counter(packet) == counter
            && a.open(packet[..NONCE], packet[NONCE..]) == Some(plaintext)
  {
    var nonce := CounterToNonce(counter);
    var packet := Wire(a, counter, plaintext);
    assert packet[..NONCE] == nonce && packet[NONCE..] == a.seal(nonce, plaintext);
    NonceRoundTrip(counter);
  }

  // What one Decrypt does to the window, and what it returns.
  function Receive(t: Tunnel, w: Window, packet: seq<Byte>): (Window, Result<seq<Byte>, Failure>)
    requires t.shape.Valid()
  {
    if |packet| < NONCE + t.aead.overhead then (w, Err(TooShort))
    else
      var c := Counter(packet);
      if !Admits(t.shape, w, c, LIMIT) then (w, Err(Replay(c)))
      else match t.aead.open(packet[..NONCE], packet[NONCE..])
        case None => (w, Err(OpenFailed(c)))
        case Some(plain) => (Record(w, c), Ok(plain))
  }

  class Session {
    const tunnel: Tunnel
    var sendCounter: nat
    var replay: Filter
    ghost var window: Window

    ghost predicate Valid()
      reads this
    {
      sendCounter < COUNTERS && Refines(tunnel.shape, replay, window)
    }

    constructor (tunnel: Tunnel)
      requires tunnel.shape.Valid()
      ensures Valid() && this.tunnel == tunnel && sendCounter == 0 && window == FRESH
    {
      this.tunnel := tunnel;
      sendCounter := 0;
      replay := NewFilter(tunnel.shape);
      window := FRESH;
      new;
      NewFilterRefines(tunnel.shape);
    }

    // sendCounter.Add(1) - 1 in uint64.
    method Encrypt(plaintext: seq<Byte>) returns (out: seq<Byte>)
      requires Valid()
      modifies this`sendCounter
      ensures Valid()
      ensures out == Wire(tunnel.aead, old(sendCounter), plaintext)
      ensures |out| >= 12 && out[..4] == [0, 0, 0, 0] && BigEndian(out[4..12]) == old(sendCounter)
      ensures out[12..] == tunnel.aead.seal(out[..12], plaintext)
      ensures sendCounter == (old(sendCounter) + 1) % 0x1_0000_0000_0000_0000
    {
      NonceRoundTrip(sendCounter);
      var counter := sendCounter;
      sendCounter := (sendCounter + 1) % COUNTERS;
      var nonce := CounterToNonce(counter);
      out := nonce + tunnel.aead.seal(nonce, plaintext);
      assert out[..12] == nonce && out[..4] == nonce[..4] && out[4..12] == nonce[4..12];
    }

    method Decrypt(ciphertext: seq<Byte>) returns (r: Result<seq<Byte>, Failure>)
      requires Valid()
      modifies this`replay, this`window
      ensures Valid()
      ensures (window, r) == Receive(tunnel, old(window), ciphertext)
      ensures r.Err? ==> replay == old(replay)
    {
      if |ciphertext| < NONCE + tunnel.aead.overhead {
        return Err(TooShort);
      }
      var nonce, sealed := ciphertext[..NONCE], ciphertext[NONCE..];
      var counter := NonceToCounter(nonce);
      var saved := replay;
      var marked, ok := ValidateCounter(tunnel.shape, replay, counter, LIMIT, window);
      replay := marked;
      if !ok {
        return Err(Replay(counter));
      }
      match tunnel.aead.open(nonce, sealed)
      case None =>
        replay := saved;
        return Err(OpenFailed(counter));
      case Some(plain) =>
        window := Record(window, counter);
        return Ok(plain);
    }
  }

  // ----- every run of Decrypt, on packets the network chose -----

  function WindowAfter(t: Tunnel, packets: seq<seq<Byte>>): Window
    requires t.shape.Valid()
  {
    if packets == [] then FRESH
    else Receive(t, WindowAfter(t, packets[..|packets| - 1]), packets[|packets| - 1]).0
  }

  function Outcome(t: Tunnel, packets: seq<seq<Byte>>, i: nat): Result<seq<Byte>, Failure>
    requires t.shape.Valid() && i < |packets|
  {
    Receive(t, WindowAfter(t, packets[..i]), packets[i]).1
  }

  ghost predicate Accepted(t: Tunnel, packets: seq<seq<Byte>>, i: int)
    requires t.shape.Valid()
  {
    0 <= i < |packets| && Outcome(t, packets, i).Ok?
  }

  lemma AcceptedIsAuthentic(t: Tunnel, packets: seq<seq<Byte>>, i: nat)
    requires t.shape.Valid() && Accepted(t, packets, i)
    ensures Authentic(t.aead, packets[i])
  {
  }

  lemma OutcomeOfPrefix(t: Tunnel, packets: seq<seq<Byte>>, n: nat, i: nat)
    requires t.shape.Valid() && i < n <= |packets|
    ensures Outcome(t, packets[..n], i) == Outcome(t, packets, i)
  {
    assert packets[..n][..i] == packets[..i];
  }

  ghost predicate AcceptedCounter(t: Tunnel, packets: seq<seq<Byte>>, c: nat)
    requires t.shape.Valid()
  {
    exists i :: Accepted(t, packets, i) && Counter(packets[i]) == c
  }

  lemma AcceptedStep(t: Tunnel, packets: seq<seq<Byte>>, c: nat)
    requires t.shape.Valid() && packets != []
    ensures var n := |packets| - 1;
            AcceptedCounter(t, packets, c) <==>
              AcceptedCounter(t, packets[..n], c) || (Accepted(t, packets, n) && Counter(packets[n]) == c)
  {
    var n := |packets| - 1;
    var front := packets[..n];
    forall i | 0 <= i < n ensures Accepted(t, front, i) <==> Accepted(t, packets, i) {
      OutcomeOfPrefix(t, packets, n, i);
    }
    if AcceptedCounter(t, front, c) {
      var i :| Accepted(t, front, i) && Counter(front[i]) == c;
      assert Accepted(t, packets, i);
    }
  }

  // The window is the set of accepted counters, with their maximum.
  lemma {:induction false} WindowIsHistory(t: Tunnel, packets: seq<seq<Byte>>)
    requires t.shape.Valid()
    ensures var w := WindowAfter(t, packets);
      && (forall c :: c in w.seen <==> AcceptedCounter(t, packets, c))
      && (forall c :: c in w.seen ==> c <= w.last)
      && (w.last in w.seen || (w.seen == {} && w.last == 0))
  {
    if packets != [] {
      var n := |packets| - 1;
      WindowIsHistory(t, packets[..n]);
      forall c: nat ensures AcceptedCounter(t, packets, c) <==> c in WindowAfter(t, packets).seen {
        AcceptedStep(t, packets, c);
      }
    }
  }

  // Nothing accepted so far rules counter c out.
  ghost predicate Open(t: Tunnel, packets: seq<seq<Byte>>, i: nat, c: nat)
    requires t.shape.Valid()
  {
    AllWithin(t, packets, i, c, (t.shape.blocks - 1) * t.shape.bits)
  }

  // No counter accepted before packet i is c or more than width ahead of it.
  ghost predicate AllWithin(t: Tunnel, packets: seq<seq<Byte>>, i: nat, c: nat, width: nat)
    requires t.shape.Valid()
  {
    forall j :: j < i && Accepted(t, packets, j) ==> Counter(packets[j]) != c && Counter(packets[j]) - c <= width
  }

  lemma OpenIsAdmitted(t: Tunnel, packets: seq<seq<Byte>>, i: nat, c: nat)
    requires t.shape.Valid() && i <= |packets|
    ensures c < LIMIT && Open(t, packets, i, c) <==> Admits(t.shape, WindowAfter(t, packets[..i]), c, LIMIT)
  {
    var width: nat := t.shape.Size();
    WithinIsBehind(t, packets, i, c, width);
  }

  lemma WithinIsBehind(t: Tunnel, packets: seq<seq<Byte>>, i: nat, c: nat, width: nat)
    requires t.shape.Valid() && i <= |packets|
    ensures var w := WindowAfter(t, packets[..i]);
            AllWithin(t, packets, i, c, width) <==> c !in w.seen && (c > w.last || w.last - c <= width)
  {
    var front := packets[..i];
    var w := WindowAfter(t, front);
    WindowIsHistory(t, front);
    forall j | 0 <= j < i ensures Accepted(t, packets, j) <==> Accepted(t, front, j) {
      OutcomeOfPrefix(t, packets, i, j);
    }
    forall j | j < i && Accepted(t, packets, j) ensures Counter(packets[j]) in w.seen {
      assert Accepted(t, front, j);
      assert AcceptedCounter(t, front, Counter(front[j]));
    }
    forall d: nat | d in w.seen ensures exists j :: j < i && Accepted(t, packets, j) && Counter(packets[j]) == d {
      var j :| Accepted(t, front, j) && Counter(front[j]) == d;
      assert Accepted(t, packets, j);
    }
  }

  // Exactly which packets of a run are accepted: the authentic ones below the
  // limit whose counter was not accepted before and is not further behind any
  // accepted counter than the window is wide. Forgeries play no part in it.
  lemma AcceptedExactly(t: Tunnel, packets: seq<seq<Byte>>, i: nat)
    requires t.shape.Valid() && i < |packets|
    ensures Accepted(t, packets, i) <==>
      && Authentic(t.aead, packets[i])
      && Counter(packets[i]) < 0xFFFF_FFFF_FFFF_FFFF
      && Open(t, packets, i, Counter(packets[i]))
  {
    OpenIsAdmitted(t, packets, i, Counter(packets[i]));
  }

  // And why the others are not: too short for nonce and tag; a counter at the
  // limit, accepted before or too far behind, whether genuine or not; or a text
  // that does not open.
  lemma RefusedExactly(t: Tunnel, packets: seq<seq<Byte>>, i: nat)
    requires t.shape.Valid() && i < |packets|
    ensures Outcome(t, packets, i) == Err(TooShort) <==> |packets[i]| < 12 + t.aead.overhead
    ensures |packets[i]| >= 12 + t.aead.overhead ==>
      var c := BigEndian(packets[i][4..12]);
      && (Outcome(t, packets, i) == Err(Replay(c)) <==>
            !(c < 0xFFFF_FFFF_FFFF_FFFF && Open(t, packets, i, c)))
      && (Outcome(t, packets, i) == Err(OpenFailed(c)) <==>
            c < 0xFFFF_FFFF_FFFF_FFFF && Open(t, packets, i, c)
            && t.aead.open(packets[i][..12], packets[i][12..]).None?)
      && (Outcome(t, packets, i).Ok? ==>
            t.aead.open(packets[i][..12], packets[i][12..]) == Some(Outcome(t, packets, i).value))
  {
    if |packets[i]| >= 12 + t.aead.overhead {
      assert packets[i][..12][4..12] == packets[i][4..12];
      OpenIsAdmitted(t, packets, i, Counter(packets[i]));
    }
  }

  lemma AcceptedOnce(t: Tunnel, packets: seq<seq<Byte>>, i: nat, j: nat)
    requires t.shape.Valid() && 0 <= i < j && Accepted(t, packets, i) && Accepted(t, packets, j)
    ensures Counter(packets[i]) != Counter(packets[j])
  {
    AcceptedIsAuthentic(t, packets, i);
    AcceptedExactly(t, packets, j);
  }

  // Taking a refused packet out of the stream changes no other outcome.
  lemma RefusedLeavesNoTrace(t: Tunnel, packets: seq<seq<Byte>>, k: nat, i: nat)
    requires t.shape.Valid() && k < i < |packets| && !Accepted(t, packets, k)
    ensures Outcome(t, packets[..k] + packets[k + 1..], i - 1) == Outcome(t, packets, i)
  {
    WindowWithout(t, packets, k, i);
    var rest := packets[..k] + packets[k + 1..];
    assert rest[..i - 1] == packets[..k] + packets[k + 1..i];
  }

  lemma {:induction false} WindowWithout(t: Tunnel, packets: seq<seq<Byte>>, k: nat, i: nat)
    requires t.shape.Valid() && k < i <= |packets| && !Accepted(t, packets, k)
    ensures WindowAfter(t, packets[..k] + packets[k + 1..i]) == WindowAfter(t, packets[..i])
  {
    assert packets[..i][..i - 1] == packets[..i - 1];
    if i == k + 1 {
      assert packets[..k] + packets[k + 1..i] == packets[..k];
    } else {
      WindowWithout(t, packets, k, i - 1);
      var less := packets[..k] + packets[k + 1..i];
      assert less[..|less| - 1] == packets[..k] + packets[k + 1..i - 1];
    }
  }

  // ----- both ends -----

  // The sender encrypted sent[0], sent[1], ... in order; nobody else can make
  // a packet that opens. Fewer packets than counters, so no nonce was reused.
  ghost predicate OnlySenderSeals(t: Tunnel, sent: seq<seq<Byte>>, packets: seq<seq<Byte>>) {
    && |sent| <= COUNTERS
    && forall i :: 0 <= i < |packets| && Authentic(t.aead, packets[i]) ==>
         exists k :: 0 <= k < |sent| && packets[i] == Wire(t.aead, k, sent[k])
  }

  // Whatever the network does, what is delivered is what was sent, at most once.
  lemma DeliveredWasSentOnce(t: Tunnel, sent: seq<seq<Byte>>, packets: seq<seq<Byte>>, i: nat)
    requires t.shape.Valid() && Correct(t.aead) && OnlySenderSeals(t, sent, packets)
    requires Accepted(t, packets, i)
    ensures Counter(packets[i]) < |sent|
    ensures Outcome(t, packets, i) == Ok(sent[Counter(packets[i])])
    ensures forall j :: j != i && Accepted(t, packets, j) ==> Counter(packets[j]) != Counter(packets[i])
  {
    AcceptedIsAuthentic(t, packets, i);
    var k :| 0 <= k < |sent| && packets[i] == Wire(t.aead, k, sent[k]);
    WireOpens(t.aead, k, sent[k]);
    forall j | j != i && Accepted(t, packets, j) ensures Counter(packets[j]) != Counter(packets[i]) {
      if i < j {
        AcceptedOnce(t, packets, i, j);
      } else {
        AcceptedOnce(t, packets, j, i);
      }
    }
  }

  lemma GenuineWithin(t: Tunnel, sent: seq<seq<Byte>>, packets: seq<seq<Byte>>, i: nat, k: nat, width: nat)
    requires t.shape.Valid() && Correct(t.aead) && OnlySenderSeals(t, sent, packets) && i < |packets|
    requires forall j, m :: 0 <= j < i && 0 <= m < |sent| && packets[j] == Wire(t.aead, m, sent[m]) ==>
               m != k && m <= k + width
    ensures AllWithin(t, packets, i, k, width)
  {
    forall j | j < i && Accepted(t, packets, j) ensures Counter(packets[j]) != k && Counter(packets[j]) - k <= width {
      AcceptedIsAuthentic(t, packets, j);
      var m :| 0 <= m < |sent| && packets[j] == Wire(t.aead, m, sent[m]);
      WireOpens(t.aead, m, sent[m]);
    }
  }

  // A genuine packet gets through unless a copy already did or it fell behind
  // the window: no forged or replayed packet can use up its counter.
  lemma GenuineIsDelivered(t: Tunnel, sent: seq<seq<Byte>>, packets: seq<seq<Byte>>, i: nat, k: nat)
    requires t.shape.Valid() && Correct(t.aead) && OnlySenderSeals(t, sent, packets)
    requires i < |packets| && k < |sent| && k < 0xFFFF_FFFF_FFFF_FFFF && packets[i] == Wire(t.aead, k, sent[k])
    requires forall j, m :: 0 <= j < i && 0 <= m < |sent| && packets[j] == Wire(t.aead, m, sent[m]) ==>
               m != k && m <= k + (t.shape.blocks - 1) * t.shape.bits
    ensures Outcome(t, packets, i) == Ok(sent[k])
  {
    WireOpens(t.aead, k, sent[k]);
    GenuineWithin(t, sent, packets, i, k, (t.shape.blocks - 1) * t.shape.bits);
    AcceptedExactly(t, packets, i);
    assert Accepted(t, packets, i);
  }
}
