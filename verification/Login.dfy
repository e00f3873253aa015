/** The login throttle: a token bucket per source, four slots, and the sessions that logins open. */
module Login {
  import opened Sets
  import opened Text

  type Source = string
  type Token = nat
  type Version = nat

  const BURST := 10.0
  const REFILL := 30.0
  const IDLE := 300.0
  const MAX_SOURCES := 10000
  const SLOTS := 4
  const MAX_SESSIONS := 100
  const SESSION_SECONDS := 43200.0

  /** The credit a source had left after its last charge, and when that was. */
  datatype Bucket = Bucket(credit: real, at: real)

  datatype Session = Session(token: Token, expires: real)

  datatype Verdict = Started | Limited(retryAfter: int)

  function Least(a: real, b: real): real {
    if a < b then a else b
  }

  /** `math.ceil` */
  function Ceil(x: real): int {
    -((-x).Floor)
  }

  /** `LoginLimited`: the delay announced for a wait. */
  function Announced(wait: real): int {
    if Ceil(wait) < 1 then 1 else Ceil(wait)
  }

  /** Entries idle for 300 seconds are forgotten. */
  function Remembered(attempts: map<Source, Bucket>, now: real): map<Source, Bucket> {
    map s | s in attempts && now - attempts[s].at < IDLE :: attempts[s]
  }

  /** The credit of a source at a time, refilled by one every 30 seconds up to ten. */
  function Credit(attempts: map<Source, Bucket>, s: Source, now: real): real {
    if s in attempts then Least(BURST, attempts[s].credit + (now - attempts[s].at) / REFILL) else BURST
  }

  predicate Buckets(attempts: map<Source, Bucket>, clock: real) {
    forall s :: s in attempts ==> attempts[s].credit >= 0.0 && attempts[s].at <= clock
  }

  /** Forgetting an idle source changes no credit decision, now or later. */
  lemma ForgettingExact(attempts: map<Source, Bucket>, now: real, s: Source, later: real)
    requires Buckets(attempts, now) && now <= later
    ensures Credit(Remembered(attempts, now), s, later) == Credit(attempts, s, later)
  {
    if s in attempts && s !in Remembered(attempts, now) {
      assert (later - attempts[s].at) / REFILL >= 10.0;
    }
  }

  lemma CreditRefills(attempts: map<Source, Bucket>, s: Source, now: real, later: real)
    requires now <= later
    ensures Credit(attempts, s, now) <= Credit(attempts, s, later) <= Credit(attempts, s, now) + (later - now) / REFILL
    ensures Credit(attempts, s, later) <= BURST
  {
  }

  /** The credit, written out: ten, or what was left refilled by one every thirty seconds. */
  lemma CreditExactly(attempts: map<Source, Bucket>, s: Source, now: real)
    ensures var full := if s in attempts then attempts[s].credit + (now - attempts[s].at) / 30.0 else 10.0;
            Credit(attempts, s, now) == if full < 10.0 then full else 10.0
  {
  }

  /** The announced delay is the least whole number of seconds, from one, after which the credit suffices. */
  lemma AnnouncedExactly(credit: real)
    ensures credit < 1.0 ==>
              var n := Announced((1.0 - credit) * REFILL);
              && n >= 1 && credit + n as real / 30.0 >= 1.0
              && (n > 1 ==> credit + (n - 1) as real / 30.0 < 1.0)
  {
  }

  /** Once the announced delay has passed the credit suffices. */
  lemma DelaySuffices(attempts: map<Source, Bucket>, s: Source, now: real, later: real)
    requires Credit(attempts, s, now) < 1.0
    requires later >= now + Announced((1.0 - Credit(attempts, s, now)) * REFILL) as real
    ensures Credit(attempts, s, later) >= 1.0
  {
    var wait := (1.0 - Credit(attempts, s, now)) * REFILL;
    assert Announced(wait) as real >= wait;
    assert (later - now) / REFILL >= 1.0 - Credit(attempts, s, now);
  }

  lemma AnnouncedSuffices(attempts: map<Source, Bucket>, s: Source, now: real)
    requires Credit(attempts, s, now) < 1.0
    ensures forall later :: later >= now + Announced((1.0 - Credit(attempts, s, now)) * REFILL) as real ==> Credit(attempts, s, later) >= 1.0
  {
    hide Credit, Announced;
    forall later | later >= now + Announced((1.0 - Credit(attempts, s, now)) * REFILL) as real ensures Credit(attempts, s, later) >= 1.0 {
      DelaySuffices(attempts, s, now, later);
    }
  }

  /** Charge times no denser than the bucket allows: any run of them is at most ten and one per 30 seconds. */
  ghost predicate Spread(c: seq<real>) {
    forall i, k :: 0 <= i <= k < |c| ==> (k - i + 1) as real <= BURST + (c[k] - c[i]) / REFILL
  }

  /** Counted from any of them, the charges and the credit left make at most ten and one per 30 seconds. */
  ghost predicate Pressed(c: seq<real>, now: real, credit: real) {
    forall i :: 0 <= i < |c| ==> (|c| - i) as real + credit <= BURST + (now - c[i]) / REFILL
  }

  lemma PressedLater(c: seq<real>, now: real, credit: real, later: real, more: real)
    requires Pressed(c, now, credit) && now <= later && more <= credit + (later - now) / REFILL
    ensures Pressed(c, later, more)
  {
    forall i | 0 <= i < |c| ensures (|c| - i) as real + more <= BURST + (later - c[i]) / REFILL {
      assert (|c| - i) as real + credit <= BURST + (now - c[i]) / REFILL;
    }
  }

  /** The charges of a source never outrun its bucket. */
  ghost predicate Metered(attempts: map<Source, Bucket>, charges: map<Source, seq<real>>, clock: real, s: Source) {
    s in charges ==> Spread(charges[s]) && Pressed(charges[s], clock, Credit(attempts, s, clock))
  }

  /** Forgetting agrees with remembering forever. */
  ghost predicate Faithful(attempts: map<Source, Bucket>, forever: map<Source, Bucket>, clock: real, s: Source) {
    && Credit(attempts, s, clock) == Credit(forever, s, clock)
    && (s in attempts ==> s in forever && forever[s] == attempts[s])
    && (s in forever && s !in attempts ==> Credit(forever, s, clock) == BURST)
  }

  /** Bounded buckets, metered, and as good as never forgotten. */
  ghost predicate Throttle(attempts: map<Source, Bucket>, forever: map<Source, Bucket>, charges: map<Source, seq<real>>, clock: real) {
    && Buckets(attempts, clock) && Buckets(forever, clock) && |attempts| <= MAX_SOURCES
    && (forall s :: Metered(attempts, charges, clock, s)) && (forall s :: Faithful(attempts, forever, clock, s))
  }

  lemma ThrottleSize(attempts: map<Source, Bucket>, forever: map<Source, Bucket>, charges: map<Source, seq<real>>, clock: real)
    requires Throttle(attempts, forever, charges, clock)
    ensures |attempts| <= 10000
  {
  }

  /** Time passes and idle sources are forgotten. */
  lemma ForgetKeeps(attempts: map<Source, Bucket>, forever: map<Source, Bucket>, charges: map<Source, seq<real>>, clock: real, now: real)
    requires Throttle(attempts, forever, charges, clock) && clock <= now
    ensures Throttle(Remembered(attempts, now), forever, charges, now)
  {
    hide Credit, Spread, Pressed;
    var kept := Remembered(attempts, now);
    RememberedSize(attempts, now);
    forall s ensures Metered(kept, charges, now, s) {
      assert Metered(attempts, charges, clock, s);
      CreditRefills(attempts, s, clock, now);
      ForgettingExact(attempts, now, s, now);
      if s in charges {
        PressedLater(charges[s], clock, Credit(attempts, s, clock), now, Credit(kept, s, now));
      }
    }
    forall s ensures Faithful(kept, forever, now, s) {
      assert Faithful(attempts, forever, clock, s);
      FaithfulLater(attempts, forever, clock, now, s);
    }
  }

  lemma FaithfulLater(attempts: map<Source, Bucket>, forever: map<Source, Bucket>, clock: real, now: real, s: Source)
    requires Buckets(attempts, clock) && Faithful(attempts, forever, clock, s) && clock <= now
    ensures Faithful(Remembered(attempts, now), forever, now, s)
  {
    ForgettingExact(attempts, now, s, now);
    CreditRefills(forever, s, clock, now);
  }

  /** One more attempt charged. */
  lemma ChargeKeeps(attempts: map<Source, Bucket>, forever: map<Source, Bucket>, charges: map<Source, seq<real>>, now: real, source: Source)
    requires Throttle(attempts, forever, charges, now) && Credit(attempts, source, now) >= 1.0
    requires source in attempts || |attempts| < MAX_SOURCES
    ensures var b := Bucket(Credit(attempts, source, now) - 1.0, now);
            Throttle(attempts[source := b], forever[source := b], charges[source := Charged(charges, source) + [now]], now)
  {
    hide Credit, Spread, Pressed;
    var credit := Credit(attempts, source, now);
    var b := Bucket(credit - 1.0, now);
    var a, f, c := attempts[source := b], forever[source := b], charges[source := Charged(charges, source) + [now]];
    CreditRefills(attempts, source, now, now);
    assert Metered(attempts, charges, now, source);
    NothingCharged(now, credit);
    Recount(Charged(charges, source), now, credit);
    assert a.Keys == attempts.Keys + {source};
    forall s ensures Metered(a, c, now, s) {
      assert Metered(attempts, charges, now, s);
      CreditSet(attempts, s, source, b, now);
    }
    forall s ensures Faithful(a, f, now, s) {
      assert Faithful(attempts, forever, now, s);
      CreditSet(attempts, s, source, b, now);
      CreditSet(forever, s, source, b, now);
    }
  }

  /** A source whose charges are forgotten after a success. */
  lemma AbsolveKeeps(attempts: map<Source, Bucket>, forever: map<Source, Bucket>, charges: map<Source, seq<real>>, now: real, source: Source)
    requires Throttle(attempts, forever, charges, now)
    ensures Throttle(attempts - {source}, forever - {source}, charges - {source}, now)
  {
    var a, f, c := attempts - {source}, forever - {source}, charges - {source};
    AbsolveBuckets(attempts, now, source);
    AbsolveBuckets(forever, now, source);
    forall s ensures Metered(a, c, now, s) {
      assert Metered(attempts, charges, now, s);
      AbsolveMetered(attempts, charges, now, source, s);
    }
    forall s ensures Faithful(a, f, now, s) {
      assert Faithful(attempts, forever, now, s);
      AbsolveFaithful(attempts, forever, now, source, s);
    }
    hide Metered, Faithful, Buckets;
  }

  lemma AbsolveBuckets(attempts: map<Source, Bucket>, now: real, source: Source)
    requires Buckets(attempts, now)
    ensures Buckets(attempts - {source}, now) && |attempts - {source}| <= |attempts|
  {
    SubsetSize((attempts - {source}).Keys, attempts.Keys);
  }

  lemma AbsolveMetered(attempts: map<Source, Bucket>, charges: map<Source, seq<real>>, now: real, source: Source, s: Source)
    requires Metered(attempts, charges, now, s)
    ensures Metered(attempts - {source}, charges - {source}, now, s)
  {
    hide Credit, Spread, Pressed;
    CreditOf(attempts, s, source, now);
  }

  lemma AbsolveFaithful(attempts: map<Source, Bucket>, forever: map<Source, Bucket>, now: real, source: Source, s: Source)
    requires Faithful(attempts, forever, now, s)
    ensures Faithful(attempts - {source}, forever - {source}, now, s)
  {
    hide Credit;
    CreditOf(attempts, s, source, now);
    CreditOf(forever, s, source, now);
  }

  lemma CreditSet(attempts: map<Source, Bucket>, s: Source, source: Source, b: Bucket, now: real)
    requires b.at == now && 0.0 <= b.credit <= BURST
    ensures Credit(attempts[source := b], s, now) == if s == source then b.credit else Credit(attempts, s, now)
  {
  }

  // ---- Sessions ----

  function Live(sessions: seq<Session>, now: real): (r: seq<Session>)
    ensures |r| <= |sessions| && forall x :: x in r <==> x in sessions && x.expires > now
  {
    if sessions == [] then []
    else (if sessions[0].expires > now then [sessions[0]] else []) + Live(sessions[1..], now)
  }

  /** The live sessions stay in order. */
  lemma {:induction false} LiveJoin(a: seq<Session>, b: seq<Session>, now: real)
    ensures Live(a + b, now) == Live(a, now) + Live(b, now)
  {
    if a == [] {
      assert a + b == b;
    } else {
      assert (a + b)[0] == a[0] && (a + b)[1..] == a[1..] + b;
      LiveJoin(a[1..], b, now);
    }
  }

  function Without(sessions: seq<Session>, token: Token): (r: seq<Session>)
    ensures |r| <= |sessions| && forall x :: x in r <==> x in sessions && x.token != token
  {
    if sessions == [] then []
    else (if sessions[0].token != token then [sessions[0]] else []) + Without(sessions[1..], token)
  }

  function Find(sessions: seq<Session>, token: Token): (r: Option<Session>)
    ensures r.Some? ==> r.value in sessions && r.value.token == token
    ensures r.None? ==> forall x :: x in sessions ==> x.token != token
  {
    if sessions == [] then None else if sessions[0].token == token then Some(sessions[0]) else Find(sessions[1..], token)
  }

  class Auth {
    var attempts: map<Source, Bucket>
    var loginSources: set<Source>
    var used: nat
    var sessions: seq<Session>
    var credentials: Version
    /** The time of the last locked block. */
    ghost var clock: real
    /** When each source was charged since its last success. */
    ghost var charges: map<Source, seq<real>>
    /** The same buckets, never forgotten. */
    ghost var forever: map<Source, Bucket>
    /** The credentials each session was opened under. */
    ghost var openedUnder: map<Token, Version>

    /** The buckets: in order, bounded in number, metered, and as good as never forgotten. */
    ghost predicate Throttled()
      reads `attempts, `forever, `clock, `charges
    {
      Throttle(attempts, forever, charges, clock)
    }

    /** The sessions: bounded in number, each opened under the credentials in force. */
    ghost predicate SessionsKept()
      reads `sessions, `openedUnder, `credentials
    {
      && |sessions| <= MAX_SESSIONS
      && (forall x :: x in sessions ==> x.token in openedUnder && openedUnder[x.token] == credentials)
    }

    /** Slots in use are logins in flight, at most one per source and four in all. */
    ghost predicate Valid()
      reads this
    {
      Throttled() && SessionsKept() && used == |loginSources| <= SLOTS
    }

    constructor (credentials: Version)
      ensures Valid() && attempts == map[] && sessions == [] && loginSources == {}
    {
      attempts, loginSources, used, sessions, this.credentials := map[], {}, 0, [], credentials;
      clock, charges, forever, openedUnder := 0.0, map[], map[], map[];
    }

    /** Time passes and idle sources are forgotten: no credit decision changes. */
    method Forget(now: real)
      requires Valid() && clock <= now
      modifies `attempts, `clock
      ensures Valid() && clock == now && attempts == Remembered(old(attempts), now)
      ensures forall s :: s in attempts <==> s in old(attempts) && now - old(attempts)[s].at < 300.0
      ensures forall s :: s in attempts ==> attempts[s] == old(attempts)[s]
      ensures forall s, later :: now <= later ==> Credit(attempts, s, later) == Credit(old(attempts), s, later)
    {
      forall s, later | now <= later ensures Credit(Remembered(attempts, now), s, later) == Credit(attempts, s, later) {
        ForgettingExact(attempts, now, s, later);
      }
      ForgetKeeps(attempts, forever, charges, clock, now);
      hide Throttle;
      attempts := Remembered(attempts, now);
      clock := now;
    }

    /** The credit of a source is what it would be had nothing been forgotten. */
    lemma ForgetCredit(source: Source, now: real)
      requires Valid() && clock <= now
      ensures Credit(Remembered(attempts, now), source, now) == Credit(forever, source, now)
    {
      ForgetKeeps(attempts, forever, charges, clock, now);
      assert Faithful(Remembered(attempts, now), forever, now, source);
    }

    /** The first locked block of `login`. Refusal for credit comes first, with a delay after which the credit
        suffices; then a login already running for the source, a full table, and no free slot. Only a started
        login is charged. */
    method Begin(source: Source, now: real) returns (v: Verdict)
      requires Valid() && clock <= now
      modifies `attempts, `loginSources, `used, `clock, `charges, `forever
      ensures Valid() && clock == now
      ensures var credit := Credit(old(forever), source, now);
              && (credit < 1.0 ==> v == Limited(Announced((1.0 - credit) * REFILL))
                                   && forall later :: later >= now + v.retryAfter as real ==> Credit(attempts, source, later) >= 1.0)
              && (credit >= 1.0 ==>
                    (v.Started? <==> source !in old(loginSources) && old(used) < SLOTS
                                     && (source in Remembered(old(attempts), now) || |Remembered(old(attempts), now)| < MAX_SOURCES)))
              && (credit >= 1.0 && !v.Started? ==> v == Limited(1))
      ensures v.Started? ==> loginSources == old(loginSources) + {source}
                             && Charged(charges, source) == Charged(old(charges), source) + [now]
                             && attempts == Remembered(old(attempts), now)[source := Bucket(Credit(old(forever), source, now) - 1.0, now)]
      ensures !v.Started? ==> loginSources == old(loginSources) && charges == old(charges) && attempts == Remembered(old(attempts), now)
      ensures forall s :: s != source ==> Charged(charges, s) == Charged(old(charges), s)
      ensures v.Started? ==> |loginSources| <= 4 && |attempts| <= 10000
      ensures forever == if v.Started? then old(forever)[source := Bucket(Credit(old(forever), source, now) - 1.0, now)] else old(forever)
      ensures v.Limited? && Credit(old(forever), source, now) >= 1.0 ==>
                source in old(loginSources) || |old(loginSources)| == 4 || (source !in attempts && |attempts| == 10000)
    {
      hide Remembered, Credit, Throttle, Announced;
      ForgetCredit(source, now);
      Forget(now);
      var credit := Credit(attempts, source, now);
      if credit < 1.0 {
        v := Limited(Announced((1.0 - credit) * REFILL));
        AnnouncedSuffices(attempts, source, now);
        return;
      }
      v := Admit(source, credit, now);
    }

    /** An attempt with enough credit: it needs a place in the table and a free slot, and no login running for its source. */
    method Admit(source: Source, credit: real, now: real) returns (v: Verdict)
      requires Valid() && now == clock && credit == Credit(attempts, source, now) && credit >= 1.0
      modifies `attempts, `loginSources, `used, `charges, `forever
      ensures Valid()
      ensures v.Started? <==> source !in old(loginSources) && |old(loginSources)| < 4
                              && (source in old(attempts) || |old(attempts)| < 10000)
      ensures !v.Started? ==> v == Limited(1) && loginSources == old(loginSources) && charges == old(charges)
                              && attempts == old(attempts) && forever == old(forever)
      ensures |attempts| <= 10000 && |loginSources| <= 4
      ensures v.Limited? ==> source in loginSources || |loginSources| == 4 || (source !in attempts && |attempts| == 10000)
      ensures v.Started? ==> loginSources == old(loginSources) + {source}
                             && charges == old(charges)[source := Charged(old(charges), source) + [now]]
                             && attempts == old(attempts)[source := Bucket(credit - 1.0, now)]
                             && forever == old(forever)[source := Bucket(credit - 1.0, now)]
    {
      hide Throttle, Credit, Charged;
      ThrottleSize(attempts, forever, charges, clock);
      if source in loginSources || (source !in attempts && |attempts| >= MAX_SOURCES) {
        return Limited(1);
      }
      if used >= SLOTS {
        return Limited(1);
      }
      used, loginSources := used + 1, loginSources + {source};
      Charge(source, credit, now);
      ThrottleSize(attempts, forever, charges, clock);
      v := Started;
    }

    /** Charging a source one attempt. */
    method Charge(source: Source, credit: real, now: real)
      requires Throttled() && now == clock && credit == Credit(attempts, source, clock) && credit >= 1.0
      requires source in attempts || |attempts| < MAX_SOURCES
      modifies `attempts, `charges, `forever
      ensures Throttled()
      ensures attempts == old(attempts)[source := Bucket(credit - 1.0, now)]
      ensures charges == old(charges)[source := Charged(old(charges), source) + [clock]]
      ensures forever == old(forever)[source := Bucket(credit - 1.0, now)]
    {
      hide Throttle;
      ChargeKeeps(attempts, forever, charges, now, source);
      charges := charges[source := Charged(charges, source) + [clock]];
      attempts := attempts[source := Bucket(credit - 1.0, now)];
      forever := forever[source := Bucket(credit - 1.0, now)];
    }

    /** The second locked block: the slot comes back. */
    method Release(source: Source)
      requires Valid() && source in loginSources
      modifies `loginSources, `used
      ensures Valid() && loginSources == old(loginSources) - {source} && used == old(used) - 1
    {
      loginSources, used := loginSources - {source}, used - 1;
    }

    /** The third locked block. `checked` are the credentials the password was checked against, and `now` the time
        the login began. A success forgets the source's charges and opens a session; a password changed meanwhile
        makes the login fail. */
    method Complete(source: Source, valid: bool, checked: Version, now: real, token: Token) returns (ok: bool)
      requires Valid() && now <= clock && Find(sessions, token).None?
      modifies `attempts, `sessions, `charges, `forever, `openedUnder
      ensures Valid()
      ensures ok == (valid && checked == credentials)
      ensures ok ==> |sessions| <= 100 && sessions != [] && sessions[|sessions| - 1] == Session(token, now + 43200.0)
                     && (|Live(old(sessions), now)| < 100 ==> sessions[..|sessions| - 1] == Live(old(sessions), now))
                     && (|Live(old(sessions), now)| >= 100 ==> sessions[..|sessions| - 1] == Live(old(sessions), now)[1..])
      ensures ok ==> attempts == old(attempts) - {source} && charges == old(charges) - {source}
                     && var live := Live(old(sessions), now);
                        sessions == (if |live| < MAX_SESSIONS then live else live[1..]) + [Session(token, now + SESSION_SECONDS)]
      ensures !ok ==> attempts == old(attempts) && charges == old(charges) && sessions == old(sessions)
    {
      hide Throttled;
      if !valid || checked != credentials {
        return false;
      }
      Absolve(source);
      OpenSession(token, now);
      ok := true;
    }

    /** A success forgets what its source was charged. */
    method Absolve(source: Source)
      requires Throttled()
      modifies `attempts, `charges, `forever
      ensures Throttled() && attempts == old(attempts) - {source} && charges == old(charges) - {source}
    {
      hide Throttle;
      AbsolveKeeps(attempts, forever, charges, clock, source);
      attempts, forever, charges := attempts - {source}, forever - {source}, charges - {source};
    }

    /** Expired sessions go; if a hundred remain, so does the oldest. */
    method OpenSession(token: Token, now: real)
      requires SessionsKept() && Find(sessions, token).None?
      modifies `sessions, `openedUnder
      ensures SessionsKept()
      ensures var live := Live(old(sessions), now);
              sessions == (if |live| < MAX_SESSIONS then live else live[1..]) + [Session(token, now + SESSION_SECONDS)]
    {
      var kept := Live(sessions, now);
      if |kept| >= MAX_SESSIONS {
        kept := kept[1..];
      }
      sessions := kept + [Session(token, now + SESSION_SECONDS)];
      openedUnder := openedUnder[token := credentials];
    }

    /** `session`: a live session, or none; an expired one is dropped. */
    method Lookup(token: Token, now: real) returns (r: Option<Session>)
      requires Valid()
      modifies `sessions
      ensures Valid()
      ensures r.Some? ==> r.value in old(sessions) && r.value.token == token && r.value.expires > now && openedUnder[token] == credentials
      ensures r.None? ==> (Find(old(sessions), token).None? || Find(old(sessions), token).value.expires <= now)
      ensures sessions == if r.Some? then old(sessions) else Without(old(sessions), token)
    {
      r := Find(sessions, token);
      if r.None? || r.value.expires <= now {
        sessions := Without(sessions, token);
        r := None;
      }
    }

    /** `change_password`: nothing changes unless the old password verifies, the new one has an allowed length and the
        file is written; then no session remains. */
    method ChangePassword(verified: bool, length: nat, written: bool, next: Version) returns (ok: bool)
      requires Valid()
      modifies `sessions, `credentials
      ensures Valid()
      ensures ok == (verified && 12 <= length <= 256 && written)
      ensures ok ==> sessions == [] && credentials == next
      ensures !ok ==> sessions == old(sessions) && credentials == old(credentials)
    {
      ok := verified && 12 <= length <= 256 && written;
      if ok {
        credentials, sessions := next, [];
      }
    }

    /** Between successes a source is charged at most ten attempts and one more for every 30 seconds, over any span. */
    lemma RateObeyed(s: Source, i: nat, j: nat)
      requires Valid() && s in charges && i <= j < |charges[s]|
      ensures (j - i + 1) as real <= 10.0 + (charges[s][j] - charges[s][i]) / 30.0
    {
      assert Metered(attempts, charges, clock, s);
    }
  }

  ghost function Charged(charges: map<Source, seq<real>>, s: Source): seq<real> {
    if s in charges then charges[s] else []
  }

  /** One more charge at `now` keeps the metering. */
  lemma Recount(c: seq<real>, now: real, credit: real)
    requires 1.0 <= credit <= BURST && Spread(c) && Pressed(c, now, credit)
    ensures Spread(c + [now]) && Pressed(c + [now], now, credit - 1.0)
  {
    var d := c + [now];
    forall i, k | 0 <= i <= k < |d| ensures (k - i + 1) as real <= BURST + (d[k] - d[i]) / REFILL {
      if k == |c| && i < |c| {
        assert (|c| - i) as real + credit <= BURST + (now - c[i]) / REFILL;
      }
    }
  }

  lemma CreditOf(attempts: map<Source, Bucket>, s: Source, gone: Source, now: real)
    ensures Credit(attempts - {gone}, s, now) == if s == gone then BURST else Credit(attempts, s, now)
  {
  }

  lemma NothingCharged(now: real, credit: real)
    ensures Spread([]) && Pressed([], now, credit)
  {
  }

  lemma RememberedSize(attempts: map<Source, Bucket>, now: real)
    ensures |Remembered(attempts, now)| <= |attempts|
  {
    SubsetSize(Remembered(attempts, now).Keys, attempts.Keys);
  }
}
