// Which local networks a client may advertise: private IPv4 networks that are
// not too wide and do not meet the VPN pool.
module LanPolicy {
  import opened Addresses
  import opened Arithmetic
  import opened Wrappers

  const MIN_ADVERTISED_PREFIX: nat := 16

  // An IPv6 prefix, masked like Addresses.Prefix.
  datatype RawPrefix6 = Prefix6(net: nat, len: nat) {
    predicate Valid() {
      len <= 128 && net % Pow2(128 - len) == 0
    }

    predicate Contains(a: nat)
      requires Valid()
    {
      a / Pow2(128 - len) == net / Pow2(128 - len)
    }
  }

  type Prefix6 = p: RawPrefix6 | p.Valid() witness Prefix6(0, 0)

  // A rule as ParseCIDROrHost understands its text; a lone address is a prefix of
  // full length.
  datatype Rule = Blank | Unparsable | V4(p: Prefix) | V6(q: Prefix6) {
    predicate Parsable() {
      V4? || V6?
    }
  }

  datatype Address = Addr4(w: Word) | Addr6(n: nat)

  // net.IPNet.Contains: a prefix holds no address of the other family.
  predicate Holds(r: Rule, a: Address)
    requires r.Parsable()
  {
    match (r, a)
    case (V4(p), Addr4(w)) => p.Contains(w)
    case (V6(q), Addr6(n)) => q.Contains(n)
    case _ => false
  }

  function NetworkAddress(r: Rule): Address
    requires r.Parsable()
  {
    if r.V4? then Addr4(r.p.net) else Addr6(r.q.net)
  }

  datatype LanError = BadRule | DefaultRoute | NotIPv4 | TooWide | NotPrivate | MeetsForbidden

  // ----- overlap -----

  function CIDRsOverlap(a: Rule, b: Rule): Result<bool, LanError> {
    if !a.Parsable() || !b.Parsable() then Err(BadRule)
    else Ok(Holds(a, NetworkAddress(b)) || Holds(b, NetworkAddress(a)))
  }

  lemma DivideTwice(x: nat, b: nat, k: nat)
    requires b > 0 && k > 0
    ensures b * k > 0 && x / b / k == x / (b * k)
  {
    DivideTwiceBy(x, b, k, x / b, x / b / k, x / b % k, x % b);
  }

  lemma DivideTwiceBy(x: nat, b: nat, k: nat, y: nat, q: nat, m: nat, r: nat)
    requires b > 0 && k > 0 && x == y * b + r && r < b && y == q * k + m && m < k
    ensures b * k > 0 && x / (b * k) == q
  {
    NonzeroMultiple(k, b);
    TwoDigits(q, k, m, b, r);
    DivideProduct(q, m * b + r, b * k);
  }

  lemma TwoDigits(q: nat, k: nat, m: nat, b: nat, r: nat)
    requires m < k && r < b
    ensures m * b + r < b * k && (q * k + m) * b + r == q * (b * k) + (m * b + r)
  {
    Regroup(q, k, m, b);
    LessTimes(m, k - 1, b);
    OneLess(k, b);
  }

  lemma Regroup(q: nat, k: nat, m: nat, b: nat)
    ensures (q * k + m) * b == q * (b * k) + m * b
  {
    assert q * k * b == q * (b * k);
  }

  lemma OneLess(k: nat, b: nat)
    ensures (k - 1) * b == b * k - b
  {
  }

  lemma LessTimes(x: nat, y: nat, b: nat)
    requires x <= y
    ensures x * b <= y * b
  {
  }

  // Two blocks whose sizes are powers of two meet exactly when the start of one
  // lies in the other.
  lemma BlocksMeet(m: nat, n: nat, d: nat, e: nat)
    ensures (m / Pow2(d) == n / Pow2(d) || n / Pow2(e) == m / Pow2(e)
             <==> exists a: nat :: a / Pow2(d) == m / Pow2(d) && a / Pow2(e) == n / Pow2(e))
  {
    if m / Pow2(d) == n / Pow2(d) {
      assert n / Pow2(d) == m / Pow2(d) && n / Pow2(e) == n / Pow2(e);
    }
    if n / Pow2(e) == m / Pow2(e) {
      assert m / Pow2(d) == m / Pow2(d) && m / Pow2(e) == n / Pow2(e);
    }
    if a: nat :| a / Pow2(d) == m / Pow2(d) && a / Pow2(e) == n / Pow2(e) {
      if d <= e {
        SmallInLarge(a, m, d, e);
      } else {
        SmallInLarge(a, n, e, d);
      }
    }
  }

  lemma SmallInLarge(a: nat, m: nat, d: nat, e: nat)
    requires d <= e && a / Pow2(d) == m / Pow2(d)
    ensures a / Pow2(e) == m / Pow2(e)
  {
    Pow2Add(d, e - d);
    DivideTwice(a, Pow2(d), Pow2(e - d));
    DivideTwice(m, Pow2(d), Pow2(e - d));
  }

  // CIDRsOverlap is right: true exactly when some address is in both.
  lemma OverlapIsShared(a: Rule, b: Rule)
    ensures CIDRsOverlap(a, b).Err? <==> !a.Parsable() || !b.Parsable()
    ensures (CIDRsOverlap(a, b).Ok? ==>
               (CIDRsOverlap(a, b).value <==> exists x :: Holds(a, x) && Holds(b, x)))
  {
    if a.V4? && b.V4? {
      OverlapV4(a.p, b.p);
    } else if a.V6? && b.V6? {
      OverlapV6(a.q, b.q);
    }
  }

  lemma OverlapV4(p: Prefix, q: Prefix)
    ensures (p.Contains(q.net) || q.Contains(p.net)) <==> exists x :: Holds(V4(p), x) && Holds(V4(q), x)
  {
    BlocksMeet(p.net, q.net, 32 - p.len, 32 - q.len);
    if p.Contains(q.net) || q.Contains(p.net) {
      var w := if p.Contains(q.net) then q.net else p.net;
      assert Holds(V4(p), Addr4(w)) && Holds(V4(q), Addr4(w));
    }
  }

  lemma OverlapV6(p: Prefix6, q: Prefix6)
    ensures (p.Contains(q.net) || q.Contains(p.net)) <==> exists x :: Holds(V6(p), x) && Holds(V6(q), x)
  {
    BlocksMeet(p.net, q.net, 128 - p.len, 128 - q.len);
    if p.Contains(q.net) || q.Contains(p.net) {
      var n := if p.Contains(q.net) then q.net else p.net;
      assert Holds(V6(p), Addr6(n)) && Holds(V6(q), Addr6(n));
    }
  }

  // ----- private networks -----

  predicate IsRFC1918(w: Word) {
    || Octet(w, 0) == 10
    || (Octet(w, 0) == 172 && 16 <= Octet(w, 1) <= 31)
    || (Octet(w, 0) == 192 && Octet(w, 1) == 168)
  }

  // Section 3 of RFC 1918 names three blocks: 10/8, 172.16/12 and 192.168/16.
  lemma PrivateBlocks(w: Word)
    ensures (IsRFC1918(w) <==>
               0x0A00_0000 <= w < 0x0B00_0000 || 0xAC10_0000 <= w < 0xAC20_0000 || 0xC0A8_0000 <= w < 0xC0A9_0000)
  {
    OctetsSum(w);
  }

  // The check looks at the leading two bytes only.
  lemma PrivateByTop(v: Word, w: Word)
    requires v / 0x1_0000 == w / 0x1_0000
    ensures IsRFC1918(v) <==> IsRFC1918(w)
  {
    TopBytes(v);
    TopBytes(w);
  }

  lemma TopBytes(w: Word)
    ensures Octet(w, 0) == w / 0x1_0000 / 256 && Octet(w, 1) == w / 0x1_0000 % 256
  {
    DivideTwice(w, 0x1_0000, 256);
  }

  predicate AllPrivate(p: Prefix) {
    forall w: Word :: p.Contains(w) ==> IsRFC1918(w)
  }

  // From /16 on, a private network address means a private network ...
  lemma PrivateFromNetwork(p: Prefix)
    requires p.len >= MIN_ADVERTISED_PREFIX
    ensures AllPrivate(p) <==> IsRFC1918(p.net)
  {
    NetContained(p);
    Sixteen();
    forall w: Word | p.Contains(w)
      ensures IsRFC1918(w) <==> IsRFC1918(p.net)
    {
      SmallInLarge(w, p.net, 32 - p.len, 16);
      PrivateByTop(w, p.net);
    }
  }

  lemma Sixteen()
    ensures Pow2(16) == 0x1_0000 && Pow2(17) == 0x2_0000
  {
    assert Pow2(4) == 16;
    Pow2Add(4, 4);
    Pow2Add(8, 8);
  }

  // ... and 16 is the least bound of which this is true.
  lemma SixteenIsLeast(bound: nat)
    ensures (forall p: Prefix :: p.len >= bound && IsRFC1918(p.net) ==> AllPrivate(p)) <==> bound >= 16
  {
    if bound >= 16 {
      forall p: Prefix | p.len >= bound && IsRFC1918(p.net)
        ensures AllPrivate(p)
      {
        PrivateFromNetwork(p);
      }
    } else {
      Sixteen();
      var p: Prefix := Prefix(0xC0A8_0000, 15);
      var w: Word := 0xC0A9_0000;
      assert p.Contains(w) && !IsRFC1918(w) && IsRFC1918(p.net);
      assert !AllPrivate(p);
    }
  }

  // ----- the checks -----

  predicate IsDefaultRoute(r: Rule) {
    (r.V4? && r.p.len == 0) || (r.V6? && r.q.len == 0)
  }

  function ValidateAdvertisedLAN(r: Rule): Result<Prefix, LanError> {
    if !r.Parsable() then Err(BadRule)
    else if IsDefaultRoute(r) then Err(DefaultRoute)
    else if !r.V4? then Err(NotIPv4)
    else if r.p.len < MIN_ADVERTISED_PREFIX then Err(TooWide)
    else if !IsRFC1918(r.p.net) then Err(NotPrivate)
    else Ok(r.p)
  }

  // What is accepted, in terms of the addresses: IPv4, /16 or longer, all private.
  lemma AcceptedExactly(r: Rule)
    ensures ValidateAdvertisedLAN(r).Ok? <==> r.V4? && r.p.len >= 16 && AllPrivate(r.p)
    ensures ValidateAdvertisedLAN(r).Ok? ==> ValidateAdvertisedLAN(r).value == r.p
    ensures ValidateAdvertisedLAN(r) == Err(BadRule) <==> r.Blank? || r.Unparsable?
    ensures ValidateAdvertisedLAN(r) == Err(DefaultRoute) <==> (r.V4? && r.p.len == 0) || (r.V6? && r.q.len == 0)
    ensures ValidateAdvertisedLAN(r) == Err(NotIPv4) <==> r.V6? && r.q.len > 0
    ensures ValidateAdvertisedLAN(r) == Err(TooWide) <==> r.V4? && 0 < r.p.len < 16
  {
    if r.V4? && r.p.len >= MIN_ADVERTISED_PREFIX {
      PrivateFromNetwork(r.p);
    }
  }

  ghost predicate Meets(p: Prefix, f: Rule) {
    f.Parsable() && exists x :: Holds(V4(p), x) && Holds(f, x)
  }

  // A forbidden entry that is blank or cannot be parsed forbids nothing.
  ghost predicate Acceptable(r: Rule, forbidden: seq<Rule>) {
    && r.V4? && r.p.len >= 16 && AllPrivate(r.p)
    && forall i :: 0 <= i < |forbidden| ==> !Meets(r.p, forbidden[i])
  }

  method ValidateAdvertisedLANNotForbidden(r: Rule, forbidden: seq<Rule>) returns (out: Result<Prefix, LanError>)
    ensures out.Ok? <==> Acceptable(r, forbidden)
    ensures out.Ok? ==> out.value == r.p
    ensures ValidateAdvertisedLAN(r).Err? ==> out == ValidateAdvertisedLAN(r)
    ensures ValidateAdvertisedLAN(r).Ok? && out.Err? ==> out.error == MeetsForbidden
  {
    AcceptedExactly(r);
    var n := ValidateAdvertisedLAN(r);
    if n.Err? {
      return n;
    }
    for i := 0 to |forbidden|
      invariant forall j :: 0 <= j < i ==> !Meets(r.p, forbidden[j])
    {
      var f := forbidden[i];
      if !f.Blank? {
        OverlapIsShared(V4(n.value), f);
        var overlap := CIDRsOverlap(V4(n.value), f);
        if overlap.Ok? && overlap.value {
          assert Meets(r.p, forbidden[i]);
          return Err(MeetsForbidden);
        }
      }
    }
    return n;
  }

  // The elements of s, each where it first occurs.
  function Dedup(s: seq<Prefix>): seq<Prefix> {
    if s == [] then []
    else
      var front, last := s[..|s| - 1], s[|s| - 1];
      Dedup(front) + if last in front then [] else [last]
  }

  ghost function Accepted(rules: seq<Rule>, forbidden: seq<Rule>): seq<Prefix> {
    if rules == [] then []
    else
      var front, last := rules[..|rules| - 1], rules[|rules| - 1];
      Accepted(front, forbidden) + if Acceptable(last, forbidden) then [last.p] else []
  }

  method DedupInOrder(items: seq<Prefix>) returns (out: seq<Prefix>)
    ensures out == Dedup(items)
  {
    out := [];
    var seen: set<Prefix> := {};
    for i := 0 to |items|
      invariant out == Dedup(items[..i])
      invariant forall p :: p in seen <==> p in items[..i]
    {
      assert items[..i + 1][..i] == items[..i];
      if items[i] !in seen {
        seen := seen + {items[i]};
        out := out + [items[i]];
      }
    }
    assert items[..|items|] == items;
  }

  method ValidLANCIDRsNotForbidden(rules: seq<Rule>, forbidden: seq<Rule>) returns (out: seq<Prefix>)
    ensures out == Dedup(Accepted(rules, forbidden))
  {
    out := [];
    for i := 0 to |rules|
      invariant out == Accepted(rules[..i], forbidden)
    {
      assert rules[..i + 1][..i] == rules[..i];
      var n := ValidateAdvertisedLANNotForbidden(rules[i], forbidden);
      if n.Ok? {
        out := out + [n.value];
      }
    }
    assert rules[..|rules|] == rules;
    out := DedupInOrder(out);
  }

  lemma {:induction false} DedupMembers(s: seq<Prefix>)
    ensures forall p :: p in Dedup(s) <==> p in s
    ensures forall i, j :: 0 <= i < j < |Dedup(s)| ==> Dedup(s)[i] != Dedup(s)[j]
  {
    if s != [] {
      var front, last := s[..|s| - 1], s[|s| - 1];
      DedupMembers(front);
      assert s == front + [last];
    }
  }

  // More input only adds at the end: elements stand in the order they first came.
  lemma {:induction false} DedupInOrderOfArrival(s: seq<Prefix>, k: nat)
    requires k <= |s|
    ensures Dedup(s[..k]) <= Dedup(s)
  {
    if k < |s| {
      var front := s[..|s| - 1];
      assert front[..k] == s[..k];
      DedupInOrderOfArrival(front, k);
    } else {
      assert s[..k] == s;
    }
  }

  lemma {:induction false} AcceptedMembers(rules: seq<Rule>, forbidden: seq<Rule>, p: Prefix)
    ensures p in Accepted(rules, forbidden) <==> V4(p) in rules && Acceptable(V4(p), forbidden)
  {
    if rules != [] {
      var front, last := rules[..|rules| - 1], rules[|rules| - 1];
      AcceptedMembers(front, forbidden, p);
      assert rules == front + [last];
    }
  }

  // The filtered list holds each acceptable network once and nothing else.
  lemma FilterExactly(rules: seq<Rule>, forbidden: seq<Rule>, p: Prefix)
    ensures p in Dedup(Accepted(rules, forbidden)) <==> V4(p) in rules && Acceptable(V4(p), forbidden)
  {
    DedupMembers(Accepted(rules, forbidden));
    AcceptedMembers(rules, forbidden, p);
  }
}
