/** Shell admission: in-place counters against the multiset of shells that are really open. */
module Limits {
  import opened Common
  import I = Identity
  import P = ProxyProto

  datatype Caps = Caps(global: nat, perKey: nat, guests: nat, perIp: nat)

  /** One open shell: a keyed player's fingerprint, or a guest's address. */
  datatype Shell = KeyedShell(fingerprint: string) | GuestShell(ip: string)

  function ShellOf(id: I.Id, ip: string): Shell {
    if id.kind == I.Guest then GuestShell(ip) else KeyedShell(id.fingerprint)
  }

  /** The open shells, keyed and guest. */
  datatype Live = Live(keyed: multiset<string>, guests: multiset<string>) {
    ghost function Size(): nat { |keyed| + |guests| }

    ghost function Of(s: Shell): nat {
      match s case KeyedShell(fp) => keyed[fp] case GuestShell(ip) => guests[ip]
    }

    ghost function With(s: Shell): Live {
      match s
      case KeyedShell(fp) => Live(keyed + multiset{fp}, guests)
      case GuestShell(ip) => Live(keyed, guests + multiset{ip})
    }

    ghost function Without(s: Shell): Live {
      match s
      case KeyedShell(fp) => Live(keyed - multiset{fp}, guests)
      case GuestShell(ip) => Live(keyed, guests - multiset{ip})
    }
  }

  const NOBODY := Live(multiset{}, multiset{})

  ghost predicate Admits(caps: Caps, live: Live, s: Shell) {
    && live.Size() < caps.global
    && match s
       case KeyedShell(fp) => live.keyed[fp] < caps.perKey
       case GuestShell(ip) => |live.guests| < caps.guests && live.guests[ip] < caps.perIp
  }

  // ------------------------------------------------------------ the counters

  /** The counters kept in place.  A bucket at zero is not stored. */
  datatype Tally = Tally(global: int, guests: int, perKey: map<string, int>, perIp: map<string, int>)

  ghost function Buckets(m: multiset<string>): map<string, int> {
    map x | x in m :: m[x]
  }

  ghost function TallyOf(live: Live): Tally {
    Tally(live.Size(), |live.guests|, Buckets(live.keyed), Buckets(live.guests))
  }

  lemma AddToBuckets(m: multiset<string>, x: string)
    ensures Buckets(m + multiset{x}) == Buckets(m)[x := Count(Buckets(m), x) + 1]
    ensures Count(Buckets(m), x) == m[x]
  {}

  lemma RemoveFromBuckets(m: multiset<string>, x: string)
    ensures x !in m ==> m - multiset{x} == m
    ensures m[x] == 1 ==> Buckets(m - multiset{x}) == Buckets(m) - {x}
    ensures m[x] > 1 ==> Buckets(m - multiset{x}) == Buckets(m)[x := m[x] - 1]
    ensures Count(Buckets(m), x) == m[x]
  {}

  /** How opening a shell shows in the counters. */
  lemma TallyWith(live: Live, s: Shell)
    ensures var t := TallyOf(live);
            match s
            case KeyedShell(fp) =>
              && Count(t.perKey, fp) == live.Of(s)
              && TallyOf(live.With(s)) ==
                 Tally(t.global + 1, t.guests, t.perKey[fp := Count(t.perKey, fp) + 1], t.perIp)
            case GuestShell(ip) =>
              && Count(t.perIp, ip) == live.Of(s)
              && TallyOf(live.With(s)) ==
                 Tally(t.global + 1, t.guests + 1, t.perKey, t.perIp[ip := Count(t.perIp, ip) + 1])
  {
    match s
    case KeyedShell(fp) => AddToBuckets(live.keyed, fp);
    case GuestShell(ip) => AddToBuckets(live.guests, ip);
  }

  /** How closing a shell shows in the counters. */
  lemma TallyWithout(live: Live, s: Shell)
    ensures live.Of(s) == 0 ==> live.Without(s) == live
    ensures var t := TallyOf(live);
            match s
            case KeyedShell(fp) =>
              && Count(t.perKey, fp) == live.Of(s)
              && (live.Of(s) > 0 ==>
                    TallyOf(live.Without(s)) == Tally(t.global - 1, t.guests, Decremented(t.perKey, fp), t.perIp))
            case GuestShell(ip) =>
              && Count(t.perIp, ip) == live.Of(s)
              && (live.Of(s) > 0 ==>
                    TallyOf(live.Without(s)) == Tally(t.global - 1, t.guests - 1, t.perKey, Decremented(t.perIp, ip)))
  {
    match s
    case KeyedShell(fp) => RemoveFromBuckets(live.keyed, fp);
    case GuestShell(ip) => RemoveFromBuckets(live.guests, ip);
  }

  function Count(m: map<string, int>, k: string): int {
    if k in m then m[k] else 0
  }

  class SessionLimits {
    const caps: Caps
    const hashing: I.Hashing
    const tables: P.Tables
    var global: int
    var guests: int
    var perKey: map<string, int>
    var perIp: map<string, int>
    ghost var live: Live

    ghost predicate Valid() reads this {
      Tally(global, guests, perKey, perIp) == TallyOf(live)
    }

    constructor (caps: Caps, hashing: I.Hashing, tables: P.Tables)
      ensures Valid() && live == NOBODY
      ensures this.caps == caps && this.hashing == hashing && this.tables == tables
    {
      this.caps, this.hashing, this.tables := caps, hashing, tables;
      global, guests, perKey, perIp := 0, 0, map[], map[];
      live := NOBODY;
    }

    method Acquire(id: I.Id, ip: string) returns (ok: bool)
      requires Valid()
      modifies this
      ensures Valid()
      ensures ok <==> I.Valid(hashing, tables, id) && Admits(caps, old(live), ShellOf(id, ip))
      ensures live == if ok then old(live).With(ShellOf(id, ip)) else old(live)
      ensures ok <==> I.Valid(hashing, tables, id) && |old(live).keyed| + |old(live).guests| < caps.global
                      && if id.kind != I.Guest then old(live).keyed[id.fingerprint] < caps.perKey
                         else |old(live).guests| < caps.guests && old(live).guests[ip] < caps.perIp
      ensures ok && id.kind == I.Guest ==> live == Live(old(live).keyed, old(live).guests + multiset{ip})
      ensures ok && id.kind != I.Guest ==> live == Live(old(live).keyed + multiset{id.fingerprint}, old(live).guests)
      ensures !ok ==> unchanged(this)
    {
      var valid := I.Validate(hashing, tables, id);
      if !valid {
        return false;
      }
      if global >= caps.global {
        return false;
      }
      if id.kind == I.Guest {
        ok := AcquireGuest(ip);
      } else {
        ok := AcquireKeyed(id.fingerprint);
      }
    }

    method AcquireGuest(ip: string) returns (ok: bool)
      requires Valid() && global < caps.global
      modifies this
      ensures Valid()
      ensures ok <==> Admits(caps, old(live), GuestShell(ip))
      ensures live == if ok then old(live).With(GuestShell(ip)) else old(live)
      ensures !ok ==> unchanged(this)
    {
      TallyWith(live, GuestShell(ip));
      var held := Count(perIp, ip);
      ok := guests < caps.guests && held < caps.perIp;
      if ok {
        guests, perIp, global, live := guests + 1, perIp[ip := held + 1], global + 1, live.With(GuestShell(ip));
      }
    }

    method AcquireKeyed(fp: string) returns (ok: bool)
      requires Valid() && global < caps.global
      modifies this
      ensures Valid()
      ensures ok <==> Admits(caps, old(live), KeyedShell(fp))
      ensures live == if ok then old(live).With(KeyedShell(fp)) else old(live)
      ensures !ok ==> unchanged(this)
    {
      TallyWith(live, KeyedShell(fp));
      var held := Count(perKey, fp);
      ok := held < caps.perKey;
      if ok {
        perKey, global, live := perKey[fp := held + 1], global + 1, live.With(KeyedShell(fp));
      }
    }

    method Release(id: I.Id, ip: string)
      requires Valid()
      modifies this
      ensures Valid()
      ensures live == old(live).Without(ShellOf(id, ip))
      ensures id.kind == I.Guest ==> live == Live(old(live).keyed, old(live).guests - multiset{ip})
      ensures id.kind != I.Guest ==> live == Live(old(live).keyed - multiset{id.fingerprint}, old(live).guests)
      ensures old(live).Of(ShellOf(id, ip)) == 0 ==> unchanged(this)
    {
      if id.kind == I.Guest {
        ReleaseGuest(ip);
      } else {
        ReleaseKeyed(id.fingerprint);
      }
    }

    method ReleaseGuest(ip: string)
      requires Valid()
      modifies this
      ensures Valid()
      ensures live == old(live).Without(GuestShell(ip))
      ensures old(live).Of(GuestShell(ip)) == 0 ==> unchanged(this)
    {
      TallyWithout(live, GuestShell(ip));
      if Count(perIp, ip) > 0 {
        var rest := Decrement(perIp, ip);
        guests, perIp, global, live := guests - 1, rest, global - 1, live.Without(GuestShell(ip));
      }
    }

    method ReleaseKeyed(fp: string)
      requires Valid()
      modifies this
      ensures Valid()
      ensures live == old(live).Without(KeyedShell(fp))
      ensures old(live).Of(KeyedShell(fp)) == 0 ==> unchanged(this)
    {
      TallyWithout(live, KeyedShell(fp));
      if Count(perKey, fp) > 0 {
        var rest := Decrement(perKey, fp);
        perKey, global, live := rest, global - 1, live.Without(KeyedShell(fp));
      }
    }
  }

  // ------------------------------------------------------------ every schedule

  /** Session handlers arrive and leave; only an admitted one runs, and it releases when it leaves. */
  datatype Event = Arrive(session: nat, shell: Shell) | Leave(session: nat)

  datatype Hall = Hall(live: Live, open: map<nat, Shell>)

  ghost function Step(caps: Caps, h: Hall, e: Event): Hall {
    match e
    case Arrive(n, s) =>
      if n in h.open || !Admits(caps, h.live, s) then h else Hall(h.live.With(s), h.open[n := s])
    case Leave(n) =>
      if n !in h.open then h else Hall(h.live.Without(h.open[n]), h.open - {n})
  }

  ghost function Exec(caps: Caps, es: seq<Event>): Hall {
    if es == [] then Hall(NOBODY, map[]) else Step(caps, Exec(caps, es[..|es| - 1]), es[|es| - 1])
  }

  ghost function Running(open: map<nat, Shell>, s: Shell): set<nat> {
    set n | n in open && open[n] == s
  }

  /** The sessions of guests. */
  ghost function GuestsOf(open: map<nat, Shell>): set<nat> {
    set n | n in open && open[n].GuestShell?
  }

  ghost predicate Faithful(h: Hall) {
    && (forall s :: h.live.Of(s) == |Running(h.open, s)|)
    && h.live.Size() == |h.open| && |h.live.guests| == |GuestsOf(h.open)|
  }

  lemma OfWith(live: Live, s: Shell, s': Shell)
    ensures live.With(s).Of(s') == live.Of(s') + (if s' == s then 1 else 0)
    ensures live.Without(s).Of(s') == live.Of(s') - (if s' == s && live.Of(s) > 0 then 1 else 0)
  {}

  lemma RunningGrows(open: map<nat, Shell>, n: nat, s: Shell, s': Shell)
    requires n !in open
    ensures |Running(open[n := s], s')| == |Running(open, s')| + (if s' == s then 1 else 0)
  {
    assert Running(open[n := s], s') == Running(open, s') + (if s' == s then {n} else {});
  }

  lemma GuestsGrow(open: map<nat, Shell>, n: nat, s: Shell)
    requires n !in open
    ensures |GuestsOf(open[n := s])| == |GuestsOf(open)| + (if s.GuestShell? then 1 else 0)
  {
    assert GuestsOf(open[n := s]) == GuestsOf(open) + (if s.GuestShell? then {n} else {});
  }

  lemma GuestsShrink(open: map<nat, Shell>, n: nat)
    requires n in open
    ensures |GuestsOf(open - {n})| == |GuestsOf(open)| - (if open[n].GuestShell? then 1 else 0)
  {
    assert GuestsOf(open - {n}) == GuestsOf(open) - {n};
  }

  lemma RunningShrinks(open: map<nat, Shell>, n: nat, s': Shell)
    requires n in open
    ensures |Running(open - {n}, s')| == |Running(open, s')| - (if s' == open[n] then 1 else 0)
    ensures |open - {n}| == |open| - 1 && |Running(open, open[n])| > 0
  {
    assert n in Running(open, open[n]);
    assert Running(open - {n}, s') == Running(open, s') - {n};
    assert (open - {n}).Keys == open.Keys - {n};
  }

  lemma ArriveIsFaithful(h: Hall, n: nat, s: Shell)
    requires Faithful(h) && n !in h.open
    ensures Faithful(Hall(h.live.With(s), h.open[n := s]))
  {
    GuestsGrow(h.open, n, s);
    forall s' ensures h.live.With(s).Of(s') == |Running(h.open[n := s], s')| {
      OfWith(h.live, s, s');
      RunningGrows(h.open, n, s, s');
    }
  }

  lemma LeaveIsFaithful(h: Hall, n: nat)
    requires Faithful(h) && n in h.open
    ensures Faithful(Hall(h.live.Without(h.open[n]), h.open - {n}))
  {
    RunningShrinks(h.open, n, h.open[n]);
    GuestsShrink(h.open, n);
    forall s' ensures h.live.Without(h.open[n]).Of(s') == |Running(h.open - {n}, s')| {
      OfWith(h.live, h.open[n], s');
      RunningShrinks(h.open, n, s');
    }
  }

  /** After any schedule, the multiset counts exactly the sessions that are running. */
  lemma {:induction false} EveryScheduleIsFaithful(caps: Caps, es: seq<Event>)
    ensures Faithful(Exec(caps, es))
    ensures Exec(caps, es).open == map[] ==> TallyOf(Exec(caps, es).live) == Tally(0, 0, map[], map[])
  {
    if es == [] {
      assert (forall s :: Running(map[], s) == {}) && GuestsOf(map[]) == {};
    } else {
      var h := Exec(caps, es[..|es| - 1]);
      EveryScheduleIsFaithful(caps, es[..|es| - 1]);
      match es[|es| - 1]
      case Arrive(n, s) => if n !in h.open { ArriveIsFaithful(h, n, s); }
      case Leave(n) => if n in h.open { LeaveIsFaithful(h, n); }
    }
    CountersDetermineShells(Exec(caps, es).live, NOBODY);
    if Exec(caps, es).open == map[] {
      assert |Exec(caps, es).live.keyed| == 0 && |Exec(caps, es).live.guests| == 0;
    }
  }

  /** Room for one more, by the sessions that run. */
  ghost predicate HasRoom(caps: Caps, open: map<nat, Shell>, s: Shell) {
    && |open| < caps.global
    && |Running(open, s)| < (if s.KeyedShell? then caps.perKey else caps.perIp)
    && (s.GuestShell? ==> |GuestsOf(open)| < caps.guests)
  }

  /** A new session runs exactly when the sessions running then leave room for it, and it runs with its own shell. */
  lemma ArrivalsAreExact(caps: Caps, es: seq<Event>, n: nat, s: Shell)
    requires n !in Exec(caps, es).open
    ensures var open := Exec(caps, es).open;
            Exec(caps, es + [Arrive(n, s)]).open == if HasRoom(caps, open, s) then open[n := s] else open
  {
    EveryScheduleIsFaithful(caps, es);
    assert (es + [Arrive(n, s)])[..|es|] == es;
    assert Exec(caps, es).live.Of(s) == |Running(Exec(caps, es).open, s)|;
  }

  /** A session that leaves no longer runs, and nobody else stops. */
  lemma LeavesAreExact(caps: Caps, es: seq<Event>, n: nat)
    ensures Exec(caps, es + [Leave(n)]).open == Exec(caps, es).open - {n}
  {
    assert (es + [Leave(n)])[..|es|] == es;
  }

  ghost predicate WithinCaps(caps: Caps, live: Live) {
    && live.Size() <= caps.global && |live.guests| <= caps.guests
    && (forall s :: live.Of(s) <= if s.KeyedShell? then caps.perKey else caps.perIp)
  }

  lemma AdmittingKeepsCaps(caps: Caps, live: Live, s: Shell)
    requires WithinCaps(caps, live)
    ensures Admits(caps, live, s) ==> WithinCaps(caps, live.With(s))
    ensures WithinCaps(caps, live.Without(s))
  {
    forall s' ensures live.With(s).Of(s') == live.Of(s') + (if s' == s then 1 else 0)
      ensures live.Without(s).Of(s') <= live.Of(s')
    {
      OfWith(live, s, s');
    }
    assert live.Without(s).Size() <= live.Size() && |live.Without(s).guests| <= |live.guests|;
  }

  /** No schedule ever exceeds a cap. */
  lemma {:induction false} CapsAlwaysHold(caps: Caps, es: seq<Event>)
    ensures WithinCaps(caps, Exec(caps, es).live)
  {
    if es != [] {
      CapsAlwaysHold(caps, es[..|es| - 1]);
      var h := Exec(caps, es[..|es| - 1]);
      match es[|es| - 1]
      case Arrive(n, s) => AdmittingKeepsCaps(caps, h.live, s);
      case Leave(n) => if n in h.open { AdmittingKeepsCaps(caps, h.live, h.open[n]); }
    }
  }

  /** Nor do the sessions that run: in all, of one player, of guests, from one address. */
  lemma RunningStayWithinCaps(caps: Caps, es: seq<Event>)
    ensures var open := Exec(caps, es).open;
            && |open| <= caps.global && |GuestsOf(open)| <= caps.guests
            && (forall fp :: |Running(open, KeyedShell(fp))| <= caps.perKey)
            && (forall ip :: |Running(open, GuestShell(ip))| <= caps.perIp)
  {
    var h := Exec(caps, es);
    CapsAlwaysHold(caps, es);
    EveryScheduleIsFaithful(caps, es);
    assert forall s :: h.live.Of(s) == |Running(h.open, s)|;
  }

  /** A shell refused for the global cap means the whole keyed reserve is in use by keyed players. */
  lemma GlobalRefusalMeansReserveUsed(caps: Caps, es: seq<Event>)
    requires Exec(caps, es).live.Size() >= caps.global
    ensures |Exec(caps, es).live.keyed| >= caps.global - caps.guests
  {
    CapsAlwaysHold(caps, es);
  }

  // ---------------------------------------------------------------- arithmetic

  ghost function Pick(m: map<string, int>): (k: string)
    requires |m| > 0
    ensures k in m
  {
    var k :| k in m.Keys; k
  }

  ghost function Sum(m: map<string, int>): int
    decreases |m|
  {
    if |m| == 0 then 0 else m[Pick(m)] + Sum(m - {Pick(m)})
  }

  lemma {:induction false} SumOfBuckets(m: multiset<string>)
    ensures Sum(Buckets(m)) == |m|
    decreases |m|
  {
    if m == multiset{} {
      assert Buckets(m) == map[];
    } else {
      var y :| y in m;
      assert y in Buckets(m);
      var k := Pick(Buckets(m));
      SumOfBuckets(m[k := 0]);
      assert Buckets(m) - {k} == Buckets(m[k := 0]);
    }
  }

  /** The stored counters agree: `guests` is the sum over addresses, `global` adds the sum over keys. */
  lemma CountersAgree(live: Live)
    ensures var t := TallyOf(live);
            && t.guests == Sum(t.perIp) && t.global == t.guests + Sum(t.perKey)
            && (forall ip :: ip in t.perIp ==> t.perIp[ip] > 0) && (forall fp :: fp in t.perKey ==> t.perKey[fp] > 0)
  {
    SumOfBuckets(live.guests);
    SumOfBuckets(live.keyed);
  }

  /** The counters say exactly which shells are open, so none are left exactly when they are all empty. */
  lemma CountersDetermineShells(a: Live, b: Live)
    ensures TallyOf(a) == TallyOf(b) <==> a == b
    ensures TallyOf(a) == Tally(0, 0, map[], map[]) <==> a == NOBODY
  {
    assert TallyOf(NOBODY) == Tally(0, 0, map[], map[]);
    BucketsDetermine(a.keyed, b.keyed);
    BucketsDetermine(a.guests, b.guests);
    BucketsDetermine(a.keyed, multiset{});
    BucketsDetermine(a.guests, multiset{});
  }

  lemma BucketsDetermine(a: multiset<string>, b: multiset<string>)
    ensures Buckets(a) == Buckets(b) ==> a == b
  {
    if Buckets(a) == Buckets(b) {
      forall x ensures a[x] == b[x] {
        assert (x in a <==> x in Buckets(a)) && (x in b <==> x in Buckets(b));
        assert x in a ==> Buckets(a)[x] == Buckets(b)[x];
      }
    }
  }
}
