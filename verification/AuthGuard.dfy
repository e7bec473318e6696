/** Transport admission: who holds a connection slot before, during and after authentication. */
module AuthGuard {
  import opened Common

  datatype Caps = Caps(pending: nat, connections: nat, guests: nat, perIp: nat)

  /** What the guard remembers of its transports. */
  datatype Ledger<C> = Ledger(closed: bool, pending: set<C>, connections: set<C>, guests: map<C, string>)

  ghost function FromIp<C>(guests: map<C, string>, ip: string): set<C> {
    set c | c in guests && guests[c] == ip
  }

  function Held(counts: map<string, int>, ip: string): int {
    if ip in counts then counts[ip] else 0
  }

  /** The per-address counters agree with the guest transports, and none is stored at zero. */
  ghost predicate Tallies<C>(counts: map<string, int>, guests: map<C, string>) {
    forall ip :: Held(counts, ip) == |FromIp(guests, ip)| && (ip in counts ==> counts[ip] != 0)
  }

  ghost predicate Nested<C>(l: Ledger<C>) {
    l.pending <= l.connections && l.guests.Keys <= l.connections
  }

  ghost predicate Sound<C>(caps: Caps, l: Ledger<C>) {
    && Nested(l)
    && |l.pending| <= caps.pending && |l.connections| <= caps.connections && |l.guests| <= caps.guests
    && forall ip :: |FromIp(l.guests, ip)| <= caps.perIp
  }

  // ------------------------------------------------------ the critical sections

  ghost predicate Refuses<C>(caps: Caps, l: Ledger<C>) {
    l.closed || |l.pending| >= caps.pending || |l.connections| >= caps.connections
  }

  ghost function Wrapped<C>(l: Ledger<C>, c: C): Ledger<C> {
    l.(pending := l.pending + {c}, connections := l.connections + {c})
  }

  ghost function Unpended<C>(l: Ledger<C>, c: C): Ledger<C> {
    l.(pending := l.pending - {c})
  }

  ghost function Released<C>(l: Ledger<C>, c: C): Ledger<C> {
    l.(pending := l.pending - {c}, connections := l.connections - {c}, guests := l.guests - {c})
  }

  ghost predicate Admits<C>(caps: Caps, l: Ledger<C>, c: C, ip: string) {
    && !l.closed && c in l.connections
    && (c in l.guests || (|l.guests| < caps.guests && |FromIp(l.guests, ip)| < caps.perIp))
  }

  ghost function Admitted<C>(caps: Caps, l: Ledger<C>, c: C, ip: string): Ledger<C> {
    if Admits(caps, l, c, ip) && c !in l.guests then l.(guests := l.guests[c := ip]) else l
  }

  lemma FromIpGrows<C>(guests: map<C, string>, c: C, ip: string, ip': string)
    requires c !in guests
    ensures |FromIp(guests[c := ip], ip')| == |FromIp(guests, ip')| + (if ip' == ip then 1 else 0)
  {
    assert FromIp(guests[c := ip], ip') == FromIp(guests, ip') + (if ip' == ip then {c} else {});
  }

  lemma FromIpShrinks<C>(guests: map<C, string>, c: C, ip: string)
    requires c in guests
    ensures |FromIp(guests - {c}, ip)| == |FromIp(guests, ip)| - (if ip == guests[c] then 1 else 0)
    ensures |FromIp(guests, guests[c])| > 0 && |guests - {c}| == |guests| - 1
  {
    assert FromIp(guests - {c}, ip) == FromIp(guests, ip) - {c};
    assert c in FromIp(guests, guests[c]);
    assert (guests - {c}).Keys == guests.Keys - {c};
  }

  lemma GuestJoins<C>(counts: map<string, int>, guests: map<C, string>, c: C, ip: string)
    requires Tallies(counts, guests) && c !in guests
    ensures Tallies(counts[ip := Held(counts, ip) + 1], guests[c := ip])
  {
    var after := counts[ip := Held(counts, ip) + 1];
    forall ip' ensures Held(after, ip') == |FromIp(guests[c := ip], ip')| && (ip' in after ==> after[ip'] != 0) {
      FromIpGrows(guests, c, ip, ip');
      assert Held(counts, ip') == |FromIp(guests, ip')|;
    }
  }

  lemma GuestLeaves<C>(counts: map<string, int>, guests: map<C, string>, c: C)
    requires Tallies(counts, guests) && c in guests
    ensures guests[c] in counts && Tallies(Decremented(counts, guests[c]), guests - {c})
  {
    FromIpShrinks(guests, c, guests[c]);
    assert Held(counts, guests[c]) == |FromIp(guests, guests[c])|;
    var after := Decremented(counts, guests[c]);
    forall ip ensures Held(after, ip) == |FromIp(guests - {c}, ip)| && (ip in after ==> after[ip] != 0) {
      FromIpShrinks(guests, c, ip);
      assert Held(counts, ip) == |FromIp(guests, ip)|;
    }
  }

  lemma AdmittedIsSound<C>(caps: Caps, l: Ledger<C>, c: C, ip: string)
    requires Sound(caps, l)
    ensures Sound(caps, Admitted(caps, l, c, ip))
  {
    if Admits(caps, l, c, ip) && c !in l.guests {
      var after := l.guests[c := ip];
      forall ip' ensures |FromIp(after, ip')| <= caps.perIp {
        FromIpGrows(l.guests, c, ip, ip');
      }
    }
  }

  ghost function ReleasedAll<C>(l: Ledger<C>, cs: set<C>): Ledger<C> {
    l.(pending := l.pending - cs, connections := l.connections - cs, guests := l.guests - cs)
  }

  lemma ReleaseNone<C>(l: Ledger<C>)
    ensures ReleasedAll(l, {}) == l
  {
    assert l.guests - {} == l.guests;
  }

  lemma ReleaseOneMore<C>(l: Ledger<C>, cs: set<C>, c: C)
    ensures Released(ReleasedAll(l, cs), c) == ReleasedAll(l, cs + {c})
  {
    assert l.guests - cs - {c} == l.guests - (cs + {c});
    assert l.pending - cs - {c} == l.pending - (cs + {c});
    assert l.connections - cs - {c} == l.connections - (cs + {c});
  }

  lemma ReleasedIsSound<C>(caps: Caps, l: Ledger<C>, c: C)
    requires Sound(caps, l)
    ensures Sound(caps, Released(l, c))
  {
    if c in l.guests {
      forall ip ensures |FromIp(l.guests - {c}, ip)| <= caps.perIp {
        FromIpShrinks(l.guests, c, ip);
      }
    } else {
      assert l.guests - {c} == l.guests;
    }
  }

  // ------------------------------------------------------------- the two classes

  class Guard {
    const caps: Caps
    var closed: bool
    var pending: set<GuardedConn>
    var connections: set<GuardedConn>
    var guests: map<GuardedConn, string>
    var guestIps: map<string, int>

    ghost function View(): Ledger<GuardedConn> reads this {
      Ledger(closed, pending, connections, guests)
    }

    ghost predicate Valid() reads this, connections {
      && Nested(View()) && Tallies(guestIps, guests)
      && forall c :: c in connections ==> c.guard == this && !c.once
    }

    constructor (caps: Caps)
      ensures Valid() && this.caps == caps && View() == Ledger(false, {}, {}, map[])
    {
      this.caps := caps;
      closed, pending, connections, guests, guestIps := false, {}, {}, map[], map[];
      new;
      assert forall ip :: FromIp(guests, ip) == {};
    }

    /** Admits a new transport, or returns null to refuse it. */
    method Wrap(authDeadline: int) returns (conn: GuardedConn?)
      requires Valid()
      modifies this
      ensures Valid()
      ensures conn == null <==> Refuses(caps, old(View()))
      ensures Refuses(caps, old(View())) <==>
                old(closed) || |old(pending)| >= caps.pending || |old(connections)| >= caps.connections
      ensures conn == null ==> View() == old(View())
      ensures conn != null ==>
                && fresh(conn) && View() == Wrapped(old(View()), conn) && conn.guard == this
                && !conn.ready && !conn.once && conn.authDeadline == authDeadline && conn.deadline == Some(authDeadline)
                && pending == old(pending) + {conn} && connections == old(connections) + {conn}
                && guests == old(guests) && !closed
    {
      if closed || |pending| >= caps.pending || |connections| >= caps.connections {
        return null;
      }
      conn := new GuardedConn(this, authDeadline);
      pending := pending + {conn};
      connections := connections + {conn};
      conn.SetDeadline(Some(conn.authDeadline));
    }

    method AdmitGuest(conn: GuardedConn, ip: string) returns (ok: bool)
      requires Valid()
      modifies this
      ensures Valid()
      ensures ok <==> Admits(caps, old(View()), conn, ip)
      ensures ok <==>
                && !old(closed) && conn in old(connections)
                && (conn in old(guests) || (|old(guests)| < caps.guests && |FromIp(old(guests), ip)| < caps.perIp))
      ensures View() == Admitted(caps, old(View()), conn, ip)
      ensures ok ==> !closed && conn in connections && conn in guests
      ensures ok && conn !in old(guests) ==> guests == old(guests)[conn := ip]
      ensures !ok || conn in old(guests) ==> guests == old(guests) && guestIps == old(guestIps)
      ensures closed == old(closed) && pending == old(pending) && connections == old(connections)
    {
      if closed {
        return false;
      }
      if conn !in connections {
        return false;
      }
      if conn in guests {
        return true;
      }
      assert Held(guestIps, ip) == |FromIp(guests, ip)|;
      if |guests| >= caps.guests || Held(guestIps, ip) >= caps.perIp {
        return false;
      }
      GuestJoins(guestIps, guests, conn, ip);
      guests := guests[conn := ip];
      guestIps := guestIps[ip := Held(guestIps, ip) + 1];
      return true;
    }

    /** Refuses new transports, then closes every one that was still authenticating. */
    method ClosePending()
      requires Valid()
      modifies this, pending`once
      ensures Valid() && View() == ReleasedAll(old(View()).(closed := true), old(pending))
      ensures closed && pending == {} && forall c :: c in old(pending) ==> c.once
      ensures connections == old(connections) - old(pending) && guests == old(guests) - old(pending)
    {
      closed := true;
      CloseEach(pending);
    }

    method CloseEach(conns: set<GuardedConn>)
      requires Valid() && conns <= connections
      modifies this, conns`once
      ensures Valid() && View() == ReleasedAll(old(View()), conns)
      ensures forall c :: c in conns ==> c.once
    {
      var todo := conns;
      ghost var done: set<GuardedConn> := {};
      ReleaseNone(View());
      while todo != {}
        invariant Valid() && View() == ReleasedAll(old(View()), done)
        invariant todo == conns - done && done <= conns
        invariant forall c :: c in done ==> c.once
        decreases todo
      {
        var c :| c in todo;
        ReleaseOneMore(old(View()), done, c);
        c.Close();
        todo, done := todo - {c}, done + {c};
      }
      assert done == conns;
    }

    /** Gives back everything a closing transport held. */
    method Forget(c: GuardedConn)
      requires Valid()
      modifies this
      ensures Valid()
      ensures View() == Released(old(View()), c)
    {
      var left, counts := guests - {c}, guestIps;
      if c in guests {
        GuestLeaves(guestIps, guests, c);
        counts := Decrement(guestIps, guests[c]);
      } else {
        assert left == guests;
      }
      pending, connections, guests, guestIps := pending - {c}, connections - {c}, left, counts;
    }
  }

  class GuardedConn {
    const guard: Guard
    const authDeadline: int
    var once: bool
    var ready: bool
    var deadline: Option<int>

    constructor (guard: Guard, authDeadline: int)
      ensures this.guard == guard && this.authDeadline == authDeadline && !once && !ready
    {
      this.guard, this.authDeadline, once, ready, deadline := guard, authDeadline, false, false, None;
    }

    /** Until authentication succeeds no deadline is later than, or absent instead of, the auth deadline. */
    method SetDeadline(t: Option<int>)
      modifies this`deadline
      ensures deadline == Clamped(ready, authDeadline, t)
      ensures !ready && (t.None? || t.value > authDeadline) ==> deadline == Some(authDeadline)
      ensures ready || (t.Some? && t.value <= authDeadline) ==> deadline == t
    {
      var d := t;
      if !ready && (t.None? || t.value > authDeadline) {
        d := Some(authDeadline);
      }
      deadline := d;
    }

    method Authenticated()
      requires guard.Valid()
      modifies this`ready, this`deadline, guard
      ensures guard.Valid() && ready && deadline == None
      ensures guard.View() == Unpended(old(guard.View()), this)
      ensures guard.pending == old(guard.pending) - {this} && guard.connections == old(guard.connections)
      ensures guard.guests == old(guard.guests) && guard.closed == old(guard.closed)
    {
      ready := true;
      deadline := None;
      guard.pending := guard.pending - {this};
    }

    /** Releases the slot the first time; later calls find nothing to release. */
    method Close()
      requires guard.Valid()
      modifies this`once, guard
      ensures guard.Valid() && once
      ensures guard.View() == Released(old(guard.View()), this)
      ensures guard.pending == old(guard.pending) - {this} && guard.connections == old(guard.connections) - {this}
      ensures guard.guests == old(guard.guests) - {this} && guard.closed == old(guard.closed)
    {
      if !once {
        guard.Forget(this);
        once := true;
      } else {
        assert guard.guests - {this} == guard.guests;
      }
    }
  }

  function Clamped(ready: bool, authDeadline: int, t: Option<int>): Option<int> {
    if !ready && (t.None? || t.value > authDeadline) then Some(authDeadline) else t
  }
}
