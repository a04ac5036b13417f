// What the check on advertised networks buys: an account that exports networks
// cannot speak for other accounts' VPN addresses.
module ExitSources {
  import opened Addresses
  import Bytes
  import opened LanPolicy
  import opened PacketPolicy
  import SessionState

  // The account's exported networks came through the check, with the VPN pool
  // among the forbidden entries.
  ghost predicate Vetted(a: SessionState.Account, pool: Prefix, forbidden: seq<Rule>) {
    && V4(pool) in forbidden
    && forall i :: 0 <= i < |a.exitLANs| ==> Acceptable(V4(a.exitLANs[i]), forbidden)
  }

  lemma ExportsMissPool(a: SessionState.Account, pool: Prefix, forbidden: seq<Rule>, w: Word)
    requires Vetted(a, pool, forbidden) && pool.Contains(w)
    ensures !IPInAnyNet(a.exitLANs, w)
  {
    var k :| 0 <= k < |forbidden| && forbidden[k] == V4(pool);
    forall i | 0 <= i < |a.exitLANs|
      ensures !a.exitLANs[i].Contains(w)
    {
      assert Acceptable(V4(a.exitLANs[i]), forbidden);
      assert !Meets(a.exitLANs[i], forbidden[k]);
      assert Holds(V4(a.exitLANs[i]), Addr4(w)) <==> a.exitLANs[i].Contains(w);
      assert Holds(V4(pool), Addr4(w));
    }
  }

  // Of all the pool's addresses only the account's own passes as a source, and
  // every other source that passes is a private address.
  lemma PoolSourceIsOwn(a: SessionState.Account, pool: Prefix, forbidden: seq<Rule>, plain: seq<Bytes.Byte>, r: Reads)
    requires Vetted(a, pool, forbidden) && Decide(a, plain, r) != Drop
    ensures IsIPv4(plain)
    ensures pool.Contains(Src(plain)) ==> Dotted(Src(plain)) == a.vpnIP
    ensures Dotted(Src(plain)) != a.vpnIP ==> IsRFC1918(Src(plain))
  {
    var src := Src(plain);
    if pool.Contains(src) {
      ExportsMissPool(a, pool, forbidden, src);
    }
    if Dotted(src) != a.vpnIP {
      var i :| 0 <= i < |a.exitLANs| && a.exitLANs[i].Contains(src);
      assert AllPrivate(a.exitLANs[i]);
    }
  }

  // So a packet under another account's VPN address is dropped, in any state.
  lemma NobodySpeaksForAnother(a: SessionState.Account, b: SessionState.Account, pool: Prefix,
          forbidden: seq<Rule>, plain: seq<Bytes.Byte>, r: Reads)
    requires Vetted(a, pool, forbidden) && IsIPv4(plain)
    requires pool.Contains(Src(plain)) && Dotted(Src(plain)) == b.vpnIP && b.vpnIP != a.vpnIP
    ensures Decide(a, plain, r) == Drop
  {
    if Decide(a, plain, r) != Drop {
      PoolSourceIsOwn(a, pool, forbidden, plain, r);
    }
  }
}
