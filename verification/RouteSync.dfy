// Keeping the kernel's routes for the tunnel equal to the policy's: normalizing
// the lists, taking the difference, and recording what is installed although
// single commands fail.
module RouteSync {
  import opened Addresses
  import Arithmetic
  import opened Sorting

  // A list entry as NormalizeCIDROrHost understands its text.
  datatype Entry = Unparsable | Written(p: Prefix)

  function ParsedSet(entries: seq<Entry>): set<Prefix> {
    set e | e in entries && e.Written? :: e.p
  }

  function AsSet(list: seq<Prefix>): set<Prefix> {
    set p | p in list
  }

  function AsWritten(list: seq<Prefix>): (r: seq<Entry>)
    ensures ParsedSet(r) == AsSet(list)
  {
    var r := seq(|list|, i requires 0 <= i < |list| => Written(list[i]));
    assert forall p :: p in list ==> Written(p) in r by {
      assert forall i :: 0 <= i < |list| ==> r[i] == Written(list[i]);
    }
    assert forall e :: e in r ==> e.Written? && e.p in list;
    assert ParsedSet(r) == AsSet(list) by {
      assert forall p :: p in ParsedSet(r) ==> p in AsSet(list);
      assert forall p :: p in AsSet(list) ==> Written(p) in r && p in ParsedSet(r);
    }
    r
  }

  // sort.Strings on the printed forms.
  predicate RouteLe(p: Prefix, q: Prefix) {
    PrefixLe(p, q)
  }

  lemma RouteLeTotalOrder()
    ensures TotalOrder(RouteLe)
  {
    PrefixLeTotalOrder();
    forall p: Prefix, q: Prefix ensures RouteLe(p, q) || RouteLe(q, p) {
      assert PrefixLe(p, q) || PrefixLe(q, p);
    }
    forall p: Prefix, q: Prefix | RouteLe(p, q) && RouteLe(q, p) ensures p == q {
      assert PrefixLe(p, q) && PrefixLe(q, p);
    }
    forall p: Prefix, q: Prefix, r: Prefix | RouteLe(p, q) && RouteLe(q, r) ensures RouteLe(p, r) {
      assert PrefixLe(p, q) && PrefixLe(q, r);
    }
  }

  // list is routes in printed order, each once.
  ghost predicate IsListing(list: seq<Prefix>, routes: set<Prefix>) {
    Sorted(list, RouteLe) && Distinct(list) && forall p :: p in list <==> p in routes
  }

  lemma ListingUnique(a: seq<Prefix>, b: seq<Prefix>, routes: set<Prefix>)
    requires IsListing(a, routes) && IsListing(b, routes)
    ensures a == b
  {
    RouteLeTotalOrder();
    SameMembersSameMultiset(a, b);
    SortedUnique(a, b, RouteLe);
  }

  lemma SortLists(list: seq<Prefix>, routes: set<Prefix>)
    requires Distinct(list) && forall p :: p in list <==> p in routes
    ensures IsListing(Sort(list, RouteLe), routes)
  {
    RouteLeTotalOrder();
    SortSorted(list, RouteLe);
    DistinctPermutes(list, Sort(list, RouteLe));
    MembersOfMultiset(Sort(list, RouteLe), list);
  }

  // ----- lists -----

  // The parsable routes, each where it first occurs.
  function FirstsOf(entries: seq<Entry>): seq<Prefix> {
    if entries == [] then []
    else
      var front, last := entries[..|entries| - 1], entries[|entries| - 1];
      FirstsOf(front) + if last.Written? && last !in front then [last.p] else []
  }

  lemma {:induction false} FirstsOfMembers(entries: seq<Entry>)
    ensures Distinct(FirstsOf(entries)) && forall p :: p in FirstsOf(entries) <==> p in ParsedSet(entries)
  {
    if entries != [] {
      var front, last := entries[..|entries| - 1], entries[|entries| - 1];
      FirstsOfMembers(front);
      OneEntryMore(entries, front, last);
      if last.Written? && last !in front {
        OneRouteMore(FirstsOf(front), last.p);
      }
    }
  }

  lemma OneEntryMore(entries: seq<Entry>, front: seq<Entry>, last: Entry)
    requires entries == front + [last]
    ensures ParsedSet(entries) == ParsedSet(front) + if last.Written? then {last.p} else {}
    ensures last.Written? ==> (last.p in ParsedSet(front) <==> last in front)
  {
    assert forall e :: e in entries <==> e in front || e == last;
  }

  lemma OneRouteMore(list: seq<Prefix>, p: Prefix)
    requires Distinct(list) && p !in list
    ensures Distinct(list + [p]) && forall q :: q in list + [p] <==> q in list || q == p
  {
  }

  method FirstOccurrences(entries: seq<Entry>) returns (out: seq<Prefix>)
    ensures out == FirstsOf(entries)
  {
    out := [];
    var seen: set<Prefix> := {};
    for i := 0 to |entries|
      invariant seen == ParsedSet(entries[..i]) && out == FirstsOf(entries[..i])
    {
      assert entries[..i + 1] == entries[..i] + [entries[i]];
      if entries[i].Written? && entries[i].p !in seen {
        seen := seen + {entries[i].p};
        out := out + [entries[i].p];
      }
    }
    assert entries[..|entries|] == entries;
  }

  // sorted is opts.Sort.
  method NormalizeCIDRs(entries: seq<Entry>, sorted: bool) returns (out: seq<Prefix>)
    ensures if sorted then IsListing(out, ParsedSet(entries)) else out == FirstsOf(entries)
  {
    out := FirstOccurrences(entries);
    if sorted {
      FirstsOfMembers(entries);
      SortLists(out, ParsedSet(entries));
      out := Sort(out, RouteLe);
    }
  }

  // normalizeRouteList
  method NormalizeCIDRList(entries: seq<Entry>) returns (out: seq<Prefix>)
    ensures IsListing(out, ParsedSet(entries))
    ensures forall i, j :: 0 <= i < j < |out| ==> TextLe(out[i].Text(), out[j].Text()) && out[i] != out[j]
  {
    out := NormalizeCIDRs(entries, true);
  }

  method SetOf(list: seq<Prefix>) returns (s: set<Prefix>)
    ensures s == AsSet(list)
  {
    s := {};
    for i := 0 to |list|
      invariant s == AsSet(list[..i])
    {
      assert list[..i + 1] == list[..i] + [list[i]];
      s := s + {list[i]};
    }
    assert list[..|list|] == list;
  }

  // The members of `from` not in `others`, sorted; the walk is in any order.
  method SortedDifference(from: set<Prefix>, others: set<Prefix>) returns (out: seq<Prefix>)
    ensures IsListing(out, from - others)
  {
    out := [];
    var rest := from;
    while rest != {}
      invariant rest <= from && Distinct(out)
      invariant forall p :: p in out <==> p in from - rest - others
    {
      var c :| c in rest;
      rest := rest - {c};
      assert c !in out;
      if c !in others {
        out := out + [c];
      }
    }
    SortLists(out, from - others);
    out := Sort(out, RouteLe);
  }

  method RouteSetDiff(installed: seq<Entry>, desired: seq<Entry>) returns (add: seq<Prefix>, del: seq<Prefix>)
    ensures IsListing(add, ParsedSet(desired) - ParsedSet(installed))
    ensures IsListing(del, ParsedSet(installed) - ParsedSet(desired))
  {
    var was := NormalizeCIDRList(installed);
    var oldSet := SetOf(was);
    var wanted := NormalizeCIDRList(desired);
    var newSet := SetOf(wanted);
    assert oldSet == ParsedSet(installed) && newSet == ParsedSet(desired);
    add := SortedDifference(newSet, oldSet);
    del := SortedDifference(oldSet, newSet);
  }

  // Go walks the two sets in any order: what RouteSetDiff may return is the same for
  // each, and depends on the routes alone, not on how the lists spell them.
  lemma DiffIgnoresOrder(installed: seq<Entry>, desired: seq<Entry>, installed': seq<Entry>, desired': seq<Entry>,
                         add: seq<Prefix>, del: seq<Prefix>, add': seq<Prefix>, del': seq<Prefix>)
    requires ParsedSet(installed) == ParsedSet(installed') && ParsedSet(desired) == ParsedSet(desired')
    requires IsListing(add, ParsedSet(desired) - ParsedSet(installed))
    requires IsListing(del, ParsedSet(installed) - ParsedSet(desired))
    requires IsListing(add', ParsedSet(desired') - ParsedSet(installed'))
    requires IsListing(del', ParsedSet(installed') - ParsedSet(desired'))
    ensures add == add' && del == del'
  {
    ListingUnique(add, add', ParsedSet(desired) - ParsedSet(installed));
    ListingUnique(del, del', ParsedSet(installed) - ParsedSet(desired));
  }

  // Lists count as equal exactly when they spell the same routes.
  method RouteListsEqual(a: seq<Entry>, b: seq<Entry>) returns (same: bool)
    ensures same <==> ParsedSet(a) == ParsedSet(b)
  {
    var na := NormalizeCIDRList(a);
    var nb := NormalizeCIDRList(b);
    assert AsSet(na) == ParsedSet(a) && AsSet(nb) == ParsedSet(b);
    same := SameRoutes(na, nb);
  }

  method SameRoutes(na: seq<Prefix>, nb: seq<Prefix>) returns (same: bool)
    requires Distinct(na) && Distinct(nb)
    ensures same <==> AsSet(na) == AsSet(nb)
  {
    DistinctSize(na);
    DistinctSize(nb);
    if |na| != |nb| {
      return false;
    }
    var members := SetOf(na);
    for i := 0 to |nb|
      invariant forall j :: 0 <= j < i ==> nb[j] in members
    {
      if nb[i] !in members {
        return false;
      }
    }
    FullSubset(AsSet(nb), AsSet(na));
    return true;
  }

  lemma {:induction false} DistinctSize(list: seq<Prefix>)
    requires Distinct(list)
    ensures |AsSet(list)| == |list|
  {
    if list != [] {
      var front, last := list[..|list| - 1], list[|list| - 1];
      DistinctSize(front);
      assert AsSet(list) == AsSet(front) + {last};
    }
  }

  lemma FullSubset(small: set<Prefix>, large: set<Prefix>)
    requires small <= large && |small| == |large|
    ensures small == large
  {
    assert large == small + (large - small);
    assert |large| == |small| + |large - small|;
    assert large - small == {};
  }

  // ----- what is wanted -----

  datatype Gateway = NoGateway | BadGateway | Gateway(w: Word)

  function HostRoute(w: Word): Prefix {
    Masked(w, 32)
  }

  predicate Covers(routes: set<Prefix>, w: Word) {
    exists p :: p in routes && p.Contains(w)
  }

  predicate GatewayHostRouteNeeded(gw: Gateway, allowed: set<Prefix>) {
    gw.Gateway? && !Covers(allowed, gw.w)
  }

  function Desired(gw: Gateway, allowed: set<Prefix>): set<Prefix> {
    if !gw.Gateway? then allowed
    else
      (if GatewayHostRouteNeeded(gw, allowed) then {HostRoute(gw.w)} else {}) + (allowed - {HostRoute(gw.w)})
  }

  method DesiredClientRoutes(gw: Gateway, allowed: seq<Entry>) returns (out: seq<Prefix>)
    ensures IsListing(out, Desired(gw, ParsedSet(allowed)))
  {
    var raw: seq<Entry> := [];
    ghost var host: set<Prefix> := {};
    if gw.Gateway? {
      var needed := HostRouteNeeded(gw.w, allowed);
      if needed {
        raw := [Written(HostRoute(gw.w))];
        host := {HostRoute(gw.w)};
      }
    }
    assert ParsedSet(raw) == host;
    for i := 0 to |allowed|
      invariant ParsedSet(raw) == host + (if gw.Gateway? then ParsedSet(allowed[..i]) - {HostRoute(gw.w)}
                                          else ParsedSet(allowed[..i]))
    {
      assert allowed[..i + 1] == allowed[..i] + [allowed[i]];
      var c := allowed[i];
      if (gw.Gateway? && c == Written(HostRoute(gw.w))) || (gw.BadGateway? && c.Unparsable?) {
      } else {
        ghost var was := raw;
        raw := raw + [c];
        assert forall e :: e in raw <==> e in was || e == c;
      }
    }
    assert allowed[..|allowed|] == allowed;
    out := NormalizeCIDRList(raw);
  }

  method HostRouteNeeded(gw: Word, allowed: seq<Entry>) returns (needed: bool)
    ensures needed == GatewayHostRouteNeeded(Gateway(gw), ParsedSet(allowed))
  {
    for i := 0 to |allowed|
      invariant forall j :: 0 <= j < i && allowed[j].Written? ==> !allowed[j].p.Contains(gw)
    {
      if allowed[i].Written? && allowed[i].p.Contains(gw) {
        assert allowed[i].p in ParsedSet(allowed);
        return false;
      }
    }
    return true;
  }

  // The wanted routes reach the gateway, except when the policy covers it by its
  // own host route and nothing else: that entry is skipped and not put back.
  lemma DesiredCoversGateway(w: Word, allowed: set<Prefix>)
    ensures (Covers(Desired(Gateway(w), allowed), w)
             <==> HostRoute(w) !in allowed || Covers(allowed - {HostRoute(w)}, w))
  {
    HostRouteOnly(w);
  }

  // Route by route: the policy's, except the gateway's own host route, which is
  // there exactly when no entry of the policy contains the gateway.
  lemma DesiredExactly(gw: Gateway, allowed: set<Prefix>, p: Prefix)
    ensures p in Desired(gw, allowed) <==>
      if gw.Gateway? && p.net == gw.w && p.len == 32 then forall q: Prefix :: q in allowed ==> !q.Contains(gw.w)
      else p in allowed
  {
    if gw.Gateway? {
      HostRouteOnly(gw.w);
    }
  }

  lemma HostRouteOnly(w: Word)
    ensures HostRoute(w).Contains(w) && HostRoute(w).net == w && HostRoute(w).len == 32
  {
    assert Arithmetic.Pow2(0) == 1;
  }

  // ----- the runtime -----

  // What the client believes installed, and what is.
  datatype State = State(record: set<Prefix>, kernel: set<Prefix>)

  // One route command of each kind per route; these fail.
  datatype Failures = Failures(adds: set<Prefix>, dels: set<Prefix>)

  const NO_FAILURES := Failures({}, {})

  function Install(s: State, desired: set<Prefix>, f: Failures): State {
    State(desired - f.adds, s.kernel + (desired - f.adds))
  }

  function Sync(s: State, desired: set<Prefix>, f: Failures): State {
    State(
      (s.record * desired) + (desired - s.record - f.adds),
      (s.kernel - (s.record - desired - f.dels)) + (desired - s.record - f.adds))
  }

  function Clear(s: State, f: Failures): State {
    State({}, s.kernel - (s.record - f.dels))
  }

  class Runtime {
    var routes: seq<Prefix>
    ghost var kernel: set<Prefix>

    ghost function View(): State
      reads this
    {
      State(AsSet(routes), kernel)
    }

    constructor ()
      ensures View() == State({}, {})
    {
      routes, kernel := [], {};
    }

    // netstack.AddClientRoute and DelClientRoute; the caller is told the outcome.
    method AddClientRoute(c: Prefix, f: Failures) returns (ok: bool)
      modifies this`kernel
      ensures ok == (c !in f.adds)
      ensures kernel == if ok then old(kernel) + {c} else old(kernel)
    {
      ok := c !in f.adds;
      if ok {
        kernel := kernel + {c};
      }
    }

    method DelClientRoute(c: Prefix, f: Failures) returns (ok: bool)
      modifies this`kernel
      ensures ok == (c !in f.dels)
      ensures kernel == if ok then old(kernel) - {c} else old(kernel)
    {
      ok := c !in f.dels;
      if ok {
        kernel := kernel - {c};
      }
    }

    method InstallRouteList(desired: seq<Prefix>, f: Failures) returns (okN: nat, failN: nat)
      modifies this
      ensures View() == Install(old(View()), AsSet(desired), f)
      ensures okN == |routes| && okN + failN == |desired|
    {
      routes := [];
      okN, failN := 0, 0;
      for i := 0 to |desired|
        invariant AsSet(routes) == AsSet(desired[..i]) - f.adds
        invariant kernel == old(kernel) + AsSet(routes)
        invariant okN == |routes| && okN + failN == i
      {
        assert desired[..i + 1] == desired[..i] + [desired[i]];
        var ok := AddClientRoute(desired[i], f);
        if ok {
          ghost var was := routes;
          routes := routes + [desired[i]];
          assert AsSet(routes) == AsSet(was) + {desired[i]};
          okN := okN + 1;
        } else {
          failN := failN + 1;
        }
      }
      assert desired[..|desired|] == desired;
    }

    method DeleteAll(del: seq<Prefix>, f: Failures)
      modifies this`kernel
      ensures kernel == old(kernel) - (AsSet(del) - f.dels)
    {
      for i := 0 to |del|
        invariant kernel == old(kernel) - (AsSet(del[..i]) - f.dels)
      {
        assert del[..i + 1] == del[..i] + [del[i]];
        var _ := DelClientRoute(del[i], f);
      }
      assert del[..|del|] == del;
    }

    method AddAll(add: seq<Prefix>, f: Failures) returns (added: seq<Prefix>, failed: nat)
      requires Distinct(add)
      modifies this`kernel
      ensures AsSet(added) == AsSet(add) - f.adds && Distinct(added) && |added| + failed == |add|
      ensures kernel == old(kernel) + AsSet(added)
    {
      added, failed := [], 0;
      for i := 0 to |add|
        invariant AsSet(added) == AsSet(add[..i]) - f.adds && Distinct(added) && |added| + failed == i
        invariant kernel == old(kernel) + AsSet(added)
      {
        assert add[..i + 1] == add[..i] + [add[i]];
        var ok := AddClientRoute(add[i], f);
        if ok {
          ghost var was := added;
          assert add[i] !in AsSet(add[..i]);
          assert add[i] !in AsSet(was);
          added := added + [add[i]];
          assert AsSet(added) == AsSet(was) + {add[i]};
        } else {
          failed := failed + 1;
        }
      }
      assert add[..|add|] == add;
    }

    method SyncRoutesDiff(desired: seq<Entry>, f: Failures) returns (addOk: nat, addFail: nat, delN: nat)
      modifies this
      ensures View() == Sync(old(View()), ParsedSet(desired), f)
      ensures IsListing(routes, View().record)
      ensures addOk == |ParsedSet(desired) - old(View()).record - f.adds|
      ensures addOk + addFail == |ParsedSet(desired) - old(View()).record|
      ensures delN == |old(View()).record - ParsedSet(desired)|
    {
      var add, del := RouteSetDiff(AsWritten(routes), desired);
      ListingSet(add, ParsedSet(desired) - AsSet(routes));
      ListingSet(del, AsSet(routes) - ParsedSet(desired));
      DeleteAll(del, f);
      var listed := NormalizeCIDRList(AsWritten(routes));
      ListingSet(listed, AsSet(routes));
      var keep := Keep(listed, del);
      var added, failed := AddAll(add, f);
      DistinctSize(added);
      ListsJoin(keep, added);
      var record := NormalizeCIDRList(AsWritten(keep + added));
      ListingSet(record, AsSet(keep + added));
      SyncedRecord(AsSet(routes), ParsedSet(desired), f.adds);
      routes := record;
      addOk, addFail, delN := |added|, failed, |del|;
    }

    // hasTun: the tunnel device is still there.
    method ClearRoutesOnly(hasTun: bool, f: Failures)
      modifies this
      ensures View() == if hasTun then Clear(old(View()), f) else old(View())
    {
      if !hasTun {
        return;
      }
      DeleteAll(routes, f);
      routes := [];
    }
  }

  lemma ListingSet(list: seq<Prefix>, routes: set<Prefix>)
    requires IsListing(list, routes)
    ensures AsSet(list) == routes && |list| == |routes|
  {
    DistinctSize(list);
  }

  lemma ListsJoin(a: seq<Prefix>, b: seq<Prefix>)
    ensures AsSet(a + b) == AsSet(a) + AsSet(b)
  {
  }

  lemma SyncedRecord(was: set<Prefix>, wanted: set<Prefix>, fails: set<Prefix>)
    ensures was - (was - wanted) + (wanted - was - fails) == was * wanted + (wanted - was - fails)
  {
    assert was - (was - wanted) == was * wanted;
  }

  method Keep(list: seq<Prefix>, del: seq<Prefix>) returns (keep: seq<Prefix>)
    ensures AsSet(keep) == AsSet(list) - AsSet(del)
  {
    var dropped := SetOf(del);
    keep := [];
    for i := 0 to |list|
      invariant AsSet(keep) == AsSet(list[..i]) - AsSet(del)
    {
      assert list[..i + 1] == list[..i] + [list[i]];
      if list[i] !in dropped {
        ghost var was := keep;
        keep := keep + [list[i]];
        assert AsSet(keep) == AsSet(was) + {list[i]};
      }
    }
    assert list[..|list|] == list;
  }

  // ----- reconciliation -----

  // Route by route. Synchronizing records what is wanted and was recorded before
  // or could be added; it adds and deletes only where record and wish differ.
  lemma SyncedExactly(s: State, desired: set<Prefix>, f: Failures, p: Prefix)
    ensures var t := Sync(s, desired, f);
      && (p in t.record <==> p in desired && (p in s.record || p !in f.adds))
      && (p in t.kernel <==>
            if p in desired && p !in s.record && p !in f.adds then true
            else if p in s.record && p !in desired && p !in f.dels then false
            else p in s.kernel)
  {
  }

  lemma InstalledExactly(s: State, desired: set<Prefix>, f: Failures, p: Prefix)
    ensures var t := Install(s, desired, f);
      && (p in t.record <==> p in desired && p !in f.adds)
      && (p in t.kernel <==> p in s.kernel || (p in desired && p !in f.adds))
    ensures var t := Clear(s, f);
      && p !in t.record
      && (p in t.kernel <==> p in s.kernel && !(p in s.record && p !in f.dels))
  {
  }

  // The record becomes exactly the wanted routes but those that had to be added
  // and could not be.
  lemma RecordAfterSync(s: State, desired: set<Prefix>, f: Failures)
    ensures Sync(s, desired, f).record == desired - ((desired - s.record) * f.adds)
  {
  }

  // With record and kernel equal and no command failing, both become the wanted
  // set, and doing it again finds nothing to add or delete.
  lemma SyncReconciles(s: State, desired: set<Prefix>, f: Failures)
    requires s.record == s.kernel
    ensures Sync(s, desired, NO_FAILURES) == State(desired, desired)
    ensures var t := Sync(s, desired, NO_FAILURES);
            desired - t.record == {} && t.record - desired == {} && Sync(t, desired, f) == t
  {
  }

  // Clearing takes out exactly what installing put in.
  lemma ClearUndoesInstall(kernel: set<Prefix>, desired: set<Prefix>, f: Failures)
    requires kernel !! desired
    ensures Clear(Install(State({}, kernel), desired, f), NO_FAILURES) == State({}, kernel)
  {
  }

  // Routes in the kernel that the client has lost track of.
  function Forgotten(s: State): set<Prefix> {
    s.kernel - s.record
  }

  // What a sync leaves forgotten: what was before, unless added anew, and every
  // route whose deletion failed.
  lemma ForgottenAfterSync(s: State, desired: set<Prefix>, f: Failures)
    requires s.record <= s.kernel
    ensures (Forgotten(Sync(s, desired, f))
             == (Forgotten(s) - (desired - f.adds)) + ((s.record - desired) * f.dels))
  {
  }

  lemma NothingLeft(a: set<Prefix>, b: set<Prefix>)
    ensures a - b == {} <==> a <= b
  {
    assert forall p :: p in a && p !in b <==> p in a - b;
  }

  // So the record tells the truth afterwards exactly when no deletion failed and
  // everything forgotten before was put back.
  lemma TruthfulExactly(s: State, desired: set<Prefix>, f: Failures)
    requires s.record <= s.kernel
    ensures var t := Sync(s, desired, f);
            t.record == t.kernel <==> (s.record - desired) * f.dels == {} && Forgotten(s) <= desired - f.adds
  {
    var t := Sync(s, desired, f);
    ForgottenAfterSync(s, desired, f);
    assert t.record <= t.kernel;
    assert t.kernel == t.record + Forgotten(t);
    NothingLeft(Forgotten(s), desired - f.adds);
  }

  datatype Operation = Installs(desired: set<Prefix>) | Syncs(desired: set<Prefix>) | Clears

  function Next(s: State, op: Operation, f: Failures): State {
    match op
    case Installs(desired) => Install(s, desired, f)
    case Syncs(desired) => Sync(s, desired, f)
    case Clears => Clear(s, f)
  }

  ghost predicate Run(states: seq<State>, ops: seq<Operation>, failures: seq<Failures>) {
    && |states| == |ops| + 1 == |failures| + 1
    && states[0] == State({}, {})
    && forall i :: 0 <= i < |ops| ==> states[i + 1] == Next(states[i], ops[i], failures[i])
  }

  // In every run a recorded route is really there, whatever failed.
  lemma {:induction false} RecordedIsInstalled(states: seq<State>, ops: seq<Operation>, failures: seq<Failures>, n: nat)
    requires Run(states, ops, failures) && n <= |ops|
    ensures states[n].record <= states[n].kernel
  {
    if n > 0 {
      RecordedIsInstalled(states, ops, failures, n - 1);
    }
  }

  // A forgotten route is never deleted again: it stays in the kernel until some
  // list wants it.
  lemma {:induction false} ForgottenStays(states: seq<State>, ops: seq<Operation>, failures: seq<Failures>, i: nat,
          j: nat, p: Prefix)
    requires Run(states, ops, failures) && i <= j <= |ops| && p in Forgotten(states[i])
    requires forall k :: i <= k < j && !ops[k].Clears? ==> p !in ops[k].desired
    ensures p in Forgotten(states[j])
  {
    if i < j {
      ForgottenStays(states, ops, failures, i, j - 1, p);
    }
  }
}
