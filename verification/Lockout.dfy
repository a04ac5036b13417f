// Login lockout: failed logins are counted per realm and client address, and an
// address that failed too often is refused for a while.
module Lockout {
  import opened Wrappers

  const SECOND: int := 1_000_000_000

  datatype Realm = Web | Tunnel

  // lockedUntil is None for the zero time.
  datatype Entry = Entry(failures: nat, lockedUntil: Option<int>)

  datatype Tables = Tables(web: map<string, Entry>, tunnel: map<string, Entry>)

  const EMPTY := Tables(map[], map[])

  // What the user store and the password check answered.
  datatype Check = NoSuchUser | Disabled | WrongPassword | Correct

  datatype Outcome = LoginLocked | BadCredentials | Accepted

  datatype RawConfig = Config(maxAttempts: int, lockoutSec: int) {
    predicate Valid() {
      maxAttempts > 0 && lockoutSec > 0
    }

    function Lockout(): int {
      lockoutSec * SECOND
    }
  }

  type Config = c: RawConfig | c.Valid() witness Config(5, 900)

  function New(maxAttempts: int, lockoutSec: int): Config {
    Config(if maxAttempts <= 0 then 5 else maxAttempts, if lockoutSec <= 0 then 900 else lockoutSec)
  }

  function Table(t: Tables, realm: Realm): map<string, Entry> {
    if realm.Tunnel? then t.tunnel else t.web
  }

  function WithTable(t: Tables, realm: Realm, m: map<string, Entry>): Tables {
    if realm.Tunnel? then t.(tunnel := m) else t.(web := m)
  }

  function Lookup(t: Tables, realm: Realm, ip: string): Option<Entry> {
    if ip in Table(t, realm) then Some(Table(t, realm)[ip]) else None
  }

  function Store(t: Tables, realm: Realm, ip: string, e: Option<Entry>): Tables {
    WithTable(t, realm, if e.Some? then Table(t, realm)[ip := e.value] else Table(t, realm) - {ip})
  }

  lemma StoreTwice(t: Tables, realm: Realm, ip: string, e: Option<Entry>, f: Option<Entry>)
    ensures Lookup(Store(t, realm, ip, e), realm, ip) == e
    ensures Store(Store(t, realm, ip, e), realm, ip, f) == Store(t, realm, ip, f)
  {
    var m := Table(t, realm);
    if e.Some? && f.Some? {
      assert m[ip := e.value][ip := f.value] == m[ip := f.value];
    } else if e.Some? {
      assert m[ip := e.value] - {ip} == m - {ip};
    } else if f.Some? {
      assert (m - {ip})[ip := f.value] == m[ip := f.value];
    } else {
      assert m - {ip} - {ip} == m - {ip};
    }
  }

  // ----- one entry -----

  predicate IsLocked(e: Option<Entry>, now: int) {
    e.Some? && e.value.lockedUntil.Some? && now < e.value.lockedUntil.value
  }

  // A lock that has run out is dropped together with its count.
  function Asked(e: Option<Entry>, now: int): Option<Entry> {
    if e.Some? && e.value.lockedUntil.Some? && now >= e.value.lockedUntil.value then None else e
  }

  function Failed(cfg: Config, e: Option<Entry>, now: int): Entry {
    var was := if e.Some? then e.value else Entry(0, None);
    var n := was.failures + 1;
    Entry(n, if n >= cfg.maxAttempts then Some(now + cfg.Lockout()) else was.lockedUntil)
  }

  // One call of verifyCredentials; the clock is read when the lock is looked at
  // and again when a failure is recorded.
  function Verify(cfg: Config, e: Option<Entry>, check: Check, asked: int, recorded: int): (Option<Entry>, Outcome) {
    if IsLocked(e, asked) then (e, LoginLocked)
    else if check.Correct? then (None, Accepted)
    else (Some(Failed(cfg, Asked(e, asked), recorded)), BadCredentials)
  }

  // The same in plain terms. A locked entry refuses everybody and stays; else only
  // the right password is accepted, and clears the entry; else there is one
  // failure more, the first one if nothing or only an expired lock was there, and
  // from maxAttempts on a lock of lockoutSec seconds.
  lemma AnswersExactly(cfg: Config, e: Option<Entry>, check: Check, asked: int, recorded: int)
    ensures var (after, outcome) := Verify(cfg, e, check, asked, recorded);
      && (outcome.LoginLocked? <==> e.Some? && e.value.lockedUntil.Some? && asked < e.value.lockedUntil.value)
      && (outcome.LoginLocked? ==> after == e)
      && (!outcome.LoginLocked? ==> (outcome.Accepted? <==> check == Correct))
      && (outcome.Accepted? ==> after == None)
      && (outcome.BadCredentials? ==>
            && after.Some?
            && after.value.failures == (if e.None? || e.value.lockedUntil.Some? then 1 else e.value.failures + 1)
            && after.value.lockedUntil == if after.value.failures < cfg.maxAttempts then None
                                          else Some(recorded + cfg.lockoutSec * 1_000_000_000))
  {
  }

  class Service {
    const cfg: Config
    var webLockouts: map<string, Entry>
    var tunnelLockouts: map<string, Entry>

    ghost function View(): Tables
      reads this
    {
      Tables(webLockouts, tunnelLockouts)
    }

    constructor (maxAttempts: int, lockoutSec: int)
      ensures cfg.maxAttempts == if maxAttempts > 0 then maxAttempts else 5
      ensures cfg.lockoutSec == if lockoutSec > 0 then lockoutSec else 900
      ensures View() == EMPTY
    {
      cfg := New(maxAttempts, lockoutSec);
      webLockouts, tunnelLockouts := map[], map[];
    }

    method SetTable(realm: Realm, m: map<string, Entry>)
      modifies this
      ensures View() == WithTable(old(View()), realm, m)
    {
      if realm.Tunnel? {
        tunnelLockouts := m;
      } else {
        webLockouts := m;
      }
    }

    method CheckLocked(realm: Realm, ip: string, now: int) returns (locked: bool)
      modifies this
      ensures locked == IsLocked(Lookup(old(View()), realm, ip), now)
      ensures View() == Store(old(View()), realm, ip, Asked(Lookup(old(View()), realm, ip), now))
    {
      var m := if realm.Tunnel? then tunnelLockouts else webLockouts;
      if ip !in m {
        assert m - {ip} == m;
        return false;
      }
      assert m[ip := m[ip]] == m;
      if m[ip].lockedUntil.None? {
        return false;
      }
      if now < m[ip].lockedUntil.value {
        return true;
      }
      SetTable(realm, m - {ip});
      return false;
    }

    method RecordFailure(realm: Realm, ip: string, now: int)
      modifies this
      ensures View() == Store(old(View()), realm, ip, Some(Failed(cfg, Lookup(old(View()), realm, ip), now)))
    {
      var m := if realm.Tunnel? then tunnelLockouts else webLockouts;
      var e := if ip in m then m[ip] else Entry(0, None);
      e := e.(failures := e.failures + 1);
      if e.failures >= cfg.maxAttempts {
        e := e.(lockedUntil := Some(now + cfg.Lockout()));
      }
      SetTable(realm, m[ip := e]);
    }

    method ClearFailures(realm: Realm, ip: string)
      modifies this
      ensures View() == Store(old(View()), realm, ip, None)
    {
      var m := if realm.Tunnel? then tunnelLockouts else webLockouts;
      SetTable(realm, m - {ip});
    }

    method VerifyCredentials(realm: Realm, ip: string, check: Check, asked: int, recorded: int)
        returns (outcome: Outcome)
      modifies this
      ensures var after := Verify(cfg, Lookup(old(View()), realm, ip), check, asked, recorded);
              View() == Store(old(View()), realm, ip, after.0) && outcome == after.1
    {
      ghost var e := Lookup(View(), realm, ip);
      StoreTwice(View(), realm, ip, Asked(e, asked), Verify(cfg, e, check, asked, recorded).0);
      var locked := CheckLocked(realm, ip, asked);
      if locked {
        return LoginLocked;
      }
      match check {
        case NoSuchUser =>
          RecordFailure(realm, ip, recorded);
          return BadCredentials;
        case Disabled =>
          RecordFailure(realm, ip, recorded);
          return BadCredentials;
        case WrongPassword =>
          RecordFailure(realm, ip, recorded);
          return BadCredentials;
        case Correct =>
          ClearFailures(realm, ip);
          return Accepted;
      }
    }

    method Login(ip: string, a: Attempt) returns (outcome: Outcome)
      modifies this
      ensures var after := LoginResult(cfg, Lookup(old(View()), Web, ip), a);
              View() == Store(old(View()), Web, ip, after.0) && outcome == after.1
    {
      ghost var e := Lookup(View(), Web, ip);
      ghost var cleared := Verify(cfg, e, a.check, a.asked, a.recorded).0;
      StoreTwice(View(), Web, ip, cleared, Some(Failed(cfg, cleared, a.recorded)));
      outcome := VerifyCredentials(Web, ip, a.check, a.asked, a.recorded);
      if outcome.Accepted? && !a.admin {
        RecordFailure(Web, ip, a.recorded);
        return BadCredentials;
      }
    }
  }

  // ----- sequences of calls -----

  datatype Call = Call(realm: Realm, ip: string, check: Check, asked: int, recorded: int)

  function Apply(cfg: Config, t: Tables, c: Call): Tables {
    Store(t, c.realm, c.ip, Verify(cfg, Lookup(t, c.realm, c.ip), c.check, c.asked, c.recorded).0)
  }

  function OutcomeOf(cfg: Config, t: Tables, c: Call): Outcome {
    Verify(cfg, Lookup(t, c.realm, c.ip), c.check, c.asked, c.recorded).1
  }

  function After(cfg: Config, t: Tables, calls: seq<Call>): Tables
    decreases |calls|
  {
    if calls == [] then t else After(cfg, Apply(cfg, t, calls[0]), calls[1..])
  }

  predicate For(c: Call, realm: Realm, ip: string) {
    c.realm == realm && c.ip == ip
  }

  // How often these calls answer (realm, ip) in this way.
  function Count(cfg: Config, t: Tables, calls: seq<Call>, realm: Realm, ip: string, o: Outcome): nat
    decreases |calls|
  {
    if calls == [] then 0
    else (if For(calls[0], realm, ip) && OutcomeOf(cfg, t, calls[0]) == o then 1 else 0)
         + Count(cfg, Apply(cfg, t, calls[0]), calls[1..], realm, ip, o)
  }

  // ----- realms and addresses do not touch each other -----

  function Only(calls: seq<Call>, realm: Realm, ip: string): seq<Call> {
    if calls == [] then []
    else (if For(calls[0], realm, ip) then [calls[0]] else []) + Only(calls[1..], realm, ip)
  }

  // What is kept for (realm, ip) and how its calls are answered is the same as if
  // no other call had been made.
  lemma {:induction false} OthersDoNotMatter(cfg: Config, t: Tables, u: Tables, calls: seq<Call>, realm: Realm,
          ip: string)
    requires Lookup(t, realm, ip) == Lookup(u, realm, ip)
    ensures Lookup(After(cfg, t, calls), realm, ip) == Lookup(After(cfg, u, Only(calls, realm, ip)), realm, ip)
    decreases |calls|
  {
    if calls != [] {
      var rest := Only(calls[1..], realm, ip);
      OneCall(cfg, t, u, calls[0], realm, ip);
      if For(calls[0], realm, ip) {
        assert ([calls[0]] + rest)[1..] == rest;
        OthersDoNotMatter(cfg, Apply(cfg, t, calls[0]), Apply(cfg, u, calls[0]), calls[1..], realm, ip);
      } else {
        assert [] + rest == rest;
        OthersDoNotMatter(cfg, Apply(cfg, t, calls[0]), u, calls[1..], realm, ip);
      }
    }
  }

  lemma OneCall(cfg: Config, t: Tables, u: Tables, c: Call, realm: Realm, ip: string)
    requires Lookup(t, realm, ip) == Lookup(u, realm, ip)
    ensures (Lookup(Apply(cfg, t, c), realm, ip)
             == if For(c, realm, ip) then Lookup(Apply(cfg, u, c), realm, ip) else Lookup(u, realm, ip))
    ensures For(c, realm, ip) ==> OutcomeOf(cfg, t, c) == OutcomeOf(cfg, u, c)
  {
  }

  lemma {:induction false} OthersDoNotCount(cfg: Config, t: Tables, u: Tables, calls: seq<Call>, realm: Realm,
          ip: string, o: Outcome)
    requires Lookup(t, realm, ip) == Lookup(u, realm, ip)
    ensures Count(cfg, t, calls, realm, ip, o) == Count(cfg, u, Only(calls, realm, ip), realm, ip, o)
    decreases |calls|
  {
    if calls != [] {
      var rest := Only(calls[1..], realm, ip);
      OneCall(cfg, t, u, calls[0], realm, ip);
      if For(calls[0], realm, ip) {
        assert ([calls[0]] + rest)[1..] == rest;
        OthersDoNotCount(cfg, Apply(cfg, t, calls[0]), Apply(cfg, u, calls[0]), calls[1..], realm, ip, o);
      } else {
        assert [] + rest == rest;
        OthersDoNotCount(cfg, Apply(cfg, t, calls[0]), u, calls[1..], realm, ip, o);
      }
    }
  }

  // ----- how many guesses -----

  // A count below the limit, or a lock.
  predicate EntryOk(cfg: Config, e: Option<Entry>) {
    e.None? || (e.value.lockedUntil.None? ==> e.value.failures < cfg.maxAttempts)
  }

  lemma {:induction false} EntriesStayOk(cfg: Config, t: Tables, calls: seq<Call>, realm: Realm, ip: string)
    requires EntryOk(cfg, Lookup(t, realm, ip))
    ensures EntryOk(cfg, Lookup(After(cfg, t, calls), realm, ip))
    decreases |calls|
  {
    if calls != [] {
      EntriesStayOk(cfg, Apply(cfg, t, calls[0]), calls[1..], realm, ip);
    }
  }

  // bad credential failures were answered since `start`: they are in the count, or
  // they set a lock that outlasts the window.
  predicate Spent(cfg: Config, e: Option<Entry>, bad: nat, start: int) {
    && EntryOk(cfg, e) && bad <= cfg.maxAttempts
    && (e.None? ==> bad == 0)
    && (e.Some? && e.value.lockedUntil.None? ==> bad <= e.value.failures)
    && (e.Some? && e.value.lockedUntil.Some? && bad > 0 ==> e.value.lockedUntil.value >= start + cfg.Lockout())
  }

  predicate InWindow(cfg: Config, c: Call, start: int) {
    start <= c.asked <= c.recorded && c.asked < start + cfg.lockoutSec * 1_000_000_000
  }

  lemma {:induction false} WindowFrom(cfg: Config, t: Tables, calls: seq<Call>, realm: Realm, ip: string, bad: nat,
          start: int)
    requires Spent(cfg, Lookup(t, realm, ip), bad, start)
    requires forall i :: 0 <= i < |calls| && For(calls[i], realm, ip) ==> InWindow(cfg, calls[i], start)
    requires Count(cfg, t, calls, realm, ip, Accepted) == 0
    ensures bad + Count(cfg, t, calls, realm, ip, BadCredentials) <= cfg.maxAttempts
    decreases |calls|
  {
    if calls != [] {
      var c := calls[0];
      var more := if For(c, realm, ip) && OutcomeOf(cfg, t, c) == BadCredentials then bad + 1 else bad;
      assert Spent(cfg, Lookup(Apply(cfg, t, c), realm, ip), more, start);
      WindowFrom(cfg, Apply(cfg, t, c), calls[1..], realm, ip, more, start);
    }
  }

  // In any stretch of calls shorter than the lockout and without a success for
  // (realm, ip), after any history, that pair is told "bad credentials" at most
  // maxAttempts times; every other call of it is refused as locked.
  lemma GuessesPerWindow(cfg: Config, before: seq<Call>, window: seq<Call>, realm: Realm, ip: string, start: int)
    requires forall i :: 0 <= i < |window| && For(window[i], realm, ip) ==> InWindow(cfg, window[i], start)
    requires Count(cfg, After(cfg, EMPTY, before), window, realm, ip, Accepted) == 0
    ensures Count(cfg, After(cfg, EMPTY, before), window, realm, ip, BadCredentials) <= cfg.maxAttempts
    ensures (Count(cfg, After(cfg, EMPTY, before), window, realm, ip, BadCredentials)
             + Count(cfg, After(cfg, EMPTY, before), window, realm, ip, LoginLocked) == |Only(window, realm, ip)|)
  {
    var t := After(cfg, EMPTY, before);
    EntriesStayOk(cfg, EMPTY, before, realm, ip);
    WindowFrom(cfg, t, window, realm, ip, 0, start);
    EachAnsweredOnce(cfg, t, window, realm, ip);
  }

  lemma {:induction false} EachAnsweredOnce(cfg: Config, t: Tables, calls: seq<Call>, realm: Realm, ip: string)
    ensures (Count(cfg, t, calls, realm, ip, BadCredentials) + Count(cfg, t, calls, realm, ip, LoginLocked)
             + Count(cfg, t, calls, realm, ip, Accepted) == |Only(calls, realm, ip)|)
    decreases |calls|
  {
    if calls != [] {
      EachAnsweredOnce(cfg, Apply(cfg, t, calls[0]), calls[1..], realm, ip);
    }
  }

  // ----- and when the lock comes -----

  predicate AllFail(calls: seq<Call>, realm: Realm, ip: string) {
    forall i :: 0 <= i < |calls| ==> For(calls[i], realm, ip) && !calls[i].check.Correct?
  }

  function Failures(e: Option<Entry>): nat {
    if e.Some? then e.value.failures else 0
  }

  predicate Unlocked(e: Option<Entry>) {
    e.Some? ==> e.value.lockedUntil.None?
  }

  lemma {:induction false} Counting(cfg: Config, t: Tables, calls: seq<Call>, realm: Realm, ip: string)
    requires AllFail(calls, realm, ip) && Unlocked(Lookup(t, realm, ip)) && EntryOk(cfg, Lookup(t, realm, ip))
    requires Failures(Lookup(t, realm, ip)) + |calls| <= cfg.maxAttempts
    ensures Lookup(After(cfg, t, calls), realm, ip) == CountedTo(cfg, Lookup(t, realm, ip), calls)
  {
    if calls != [] {
      var front := calls[..|calls| - 1];
      Counting(cfg, t, front, realm, ip);
      AfterLast(cfg, t, calls);
    }
  }

  function CountedTo(cfg: Config, e: Option<Entry>, calls: seq<Call>): Option<Entry> {
    if calls == [] then e
    else
      var n := Failures(e) + |calls|;
      Some(Entry(n, if n < cfg.maxAttempts then None else Some(calls[|calls| - 1].recorded + cfg.Lockout())))
  }

  lemma {:induction false} AfterLast(cfg: Config, t: Tables, calls: seq<Call>)
    requires calls != []
    ensures After(cfg, t, calls) == Apply(cfg, After(cfg, t, calls[..|calls| - 1]), calls[|calls| - 1])
    decreases |calls|
  {
    if |calls| > 1 {
      AfterLast(cfg, Apply(cfg, t, calls[0]), calls[1..]);
      assert calls[1..][..|calls| - 2] == calls[..|calls| - 1][1..];
    }
  }

  // After any history that left no lock, with some failures counted: of the failing
  // calls that follow exactly so many are answered as bad credentials as bring the
  // count to maxAttempts; the next call is refused exactly while the lock lasts,
  // right password or not.
  lemma LockedAfterMax(cfg: Config, before: seq<Call>, calls: seq<Call>, next: Call, realm: Realm, ip: string)
    requires Unlocked(Lookup(After(cfg, EMPTY, before), realm, ip))
    requires AllFail(calls, realm, ip) && For(next, realm, ip)
    requires Failures(Lookup(After(cfg, EMPTY, before), realm, ip)) + |calls| <= cfg.maxAttempts
    ensures (OutcomeOf(cfg, After(cfg, After(cfg, EMPTY, before), calls), next).LoginLocked?
             <==> calls != [] && Failures(Lookup(After(cfg, EMPTY, before), realm, ip)) + |calls| == cfg.maxAttempts
                  && next.asked < calls[|calls| - 1].recorded + cfg.lockoutSec * 1_000_000_000)
  {
    EntriesStayOk(cfg, EMPTY, before, realm, ip);
    Counting(cfg, After(cfg, EMPTY, before), calls, realm, ip);
  }

  // A lock that has run out leaves nothing behind, whatever led to it: the next call
  // is answered, and what is kept after it is, as if no call had been made before.
  lemma FreshAfterLock(cfg: Config, before: seq<Call>, next: Call, realm: Realm, ip: string)
    requires For(next, realm, ip)
    requires var e := Lookup(After(cfg, EMPTY, before), realm, ip);
             e.Some? && e.value.lockedUntil.Some? && next.asked >= e.value.lockedUntil.value
    ensures OutcomeOf(cfg, After(cfg, EMPTY, before), next) == OutcomeOf(cfg, EMPTY, next)
    ensures (Lookup(Apply(cfg, After(cfg, EMPTY, before), next), realm, ip)
             == Lookup(Apply(cfg, EMPTY, next), realm, ip))
  {
    StoreTwice(After(cfg, EMPTY, before), realm, ip, None, None);
  }

  // ----- the administrators' page -----

  // Calls of Login from one address; admin says whether the account, if there is
  // one, is an administrator's.
  datatype Attempt = Attempt(check: Check, admin: bool, asked: int, recorded: int)

  // Login refuses an ordinary account after its password was found right and the
  // count cleared, and counts that as a failure.
  function LoginResult(cfg: Config, e: Option<Entry>, a: Attempt): (Option<Entry>, Outcome) {
    var (after, outcome) := Verify(cfg, e, a.check, a.asked, a.recorded);
    if outcome.Accepted? && !a.admin then (Some(Failed(cfg, after, a.recorded)), BadCredentials) else (after, outcome)
  }

  function Bads(cfg: Config, e: Option<Entry>, attempts: seq<Attempt>): nat
    decreases |attempts|
  {
    if attempts == [] then 0
    else
      var (after, outcome) := LoginResult(cfg, e, attempts[0]);
      (if outcome.BadCredentials? then 1 else 0) + Bads(cfg, after, attempts[1..])
  }

  // An ordinary account's right password, answered as bad credentials.
  predicate Resets(cfg: Config, e: Option<Entry>, a: Attempt) {
    a.check.Correct? && !a.admin && !IsLocked(e, a.asked)
  }

  function ResetCount(cfg: Config, e: Option<Entry>, attempts: seq<Attempt>): nat
    decreases |attempts|
  {
    if attempts == [] then 0
    else
      (if Resets(cfg, e, attempts[0]) then 1 else 0)
      + ResetCount(cfg, LoginResult(cfg, e, attempts[0]).0, attempts[1..])
  }

  // A call answered as bad credentials raises the count by one, exactly unless it
  // gave an ordinary account's right password: that sets it back to one.
  lemma LoginCountsUnlessReset(cfg: Config, e: Option<Entry>, a: Attempt)
    requires LoginResult(cfg, e, a).1.BadCredentials?
    ensures var counted := Failures(Asked(e, a.asked));
            && LoginResult(cfg, e, a).0.Some?
            && Failures(LoginResult(cfg, e, a).0) == (if Resets(cfg, e, a) then 1 else counted + 1)
            && (Failures(LoginResult(cfg, e, a).0) == counted + 1 <==> !Resets(cfg, e, a) || counted == 0)
  {
  }

  predicate InTime(cfg: Config, a: Attempt, start: int) {
    start <= a.asked <= a.recorded && a.asked < start + cfg.lockoutSec * 1_000_000_000
  }

  lemma {:induction false} LoginFrom(cfg: Config, e: Option<Entry>, attempts: seq<Attempt>, bad: nat, start: int)
    requires Spent(cfg, e, bad, start)
    requires forall a :: a in attempts ==> InTime(cfg, a, start)
    requires forall a :: a in attempts ==> !(a.check.Correct? && a.admin)
    ensures bad + Bads(cfg, e, attempts) <= cfg.maxAttempts * (1 + ResetCount(cfg, e, attempts))
    decreases |attempts|
  {
    if attempts != [] {
      var a := attempts[0];
      var after := LoginResult(cfg, e, a).0;
      LoginSpends(cfg, e, a, bad, start);
      LoginFrom(cfg, after, attempts[1..], SpentAfter(cfg, e, a, bad), start);
      MoreTimes(cfg.maxAttempts, ResetCount(cfg, after, attempts[1..]));
    }
  }

  function SpentAfter(cfg: Config, e: Option<Entry>, a: Attempt, bad: nat): nat {
    if IsLocked(e, a.asked) then bad else if Resets(cfg, e, a) then 1 else bad + 1
  }

  lemma LoginSpends(cfg: Config, e: Option<Entry>, a: Attempt, bad: nat, start: int)
    requires Spent(cfg, e, bad, start) && !(a.check.Correct? && a.admin)
    requires InTime(cfg, a, start)
    ensures Spent(cfg, LoginResult(cfg, e, a).0, SpentAfter(cfg, e, a, bad), start)
    ensures LoginResult(cfg, e, a).1.BadCredentials? <==> !IsLocked(e, a.asked)
  {
  }

  lemma MoreTimes(m: int, k: nat)
    ensures m * (2 + k) == m * (1 + k) + m
  {
  }

  // So on that page the bound is maxAttempts for each stretch between such resets:
  // with none of them in a window it is the bound of verifyCredentials ...
  lemma LoginGuessesPerWindow(cfg: Config, e: Option<Entry>, attempts: seq<Attempt>, start: int)
    requires EntryOk(cfg, e)
    requires forall a :: a in attempts ==> InTime(cfg, a, start)
    requires forall a :: a in attempts ==> !(a.check.Correct? && a.admin)
    ensures Bads(cfg, e, attempts) <= cfg.maxAttempts * (1 + ResetCount(cfg, e, attempts))
  {
    LoginFrom(cfg, e, attempts, 0, start);
  }

  // ... and with them there is no bound: wrong passwords in turn with an ordinary
  // account's right one are never refused, where two failures do not lock yet.
  lemma {:induction false} ResetsUndoTheBound(cfg: Config, n: nat, now: int) returns (attempts: seq<Attempt>)
    requires cfg.maxAttempts > 2
    ensures |attempts| == 2 * n && forall a :: a in attempts ==> a.asked == now == a.recorded && !a.admin
    ensures forall f: nat :: f <= 1 ==> Bads(cfg, Some(Entry(f, None)), attempts) == 2 * n
  {
    attempts := [];
    if n > 0 {
      var rest := ResetsUndoTheBound(cfg, n - 1, now);
      var wrong, right := Attempt(WrongPassword, false, now, now), Attempt(Correct, false, now, now);
      attempts := [wrong, right] + rest;
      assert attempts[1..][1..] == rest && attempts[1..][0] == right;
      forall f: nat | f <= 1
        ensures Bads(cfg, Some(Entry(f, None)), attempts) == 2 * n
      {
        assert LoginResult(cfg, Some(Entry(f, None)), wrong) == (Some(Entry(f + 1, None)), BadCredentials);
        assert LoginResult(cfg, Some(Entry(f + 1, None)), right) == (Some(Entry(1, None)), BadCredentials);
        assert Bads(cfg, Some(Entry(f + 1, None)), attempts[1..]) == 1 + Bads(cfg, Some(Entry(1, None)), rest);
      }
    }
  }
}
