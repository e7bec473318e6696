/**
 Every interleaving of the guard's critical sections: transports are wrapped, authenticate,
 are admitted as guests and close, while shutdown sweeps those still authenticating.
 */
module TransportSchedule {
  import opened Common
  import opened AuthGuard

  type Conn = nat

  datatype State = State(
    ledger: Ledger<Conn>,
    limit: map<Conn, int>,                // the auth deadline of every transport ever wrapped
    deadline: map<Conn, Option<int>>,     // the deadline last set on it
    ready: set<Conn>,                     // authentication succeeded
    released: set<Conn>,                  // `once` has run
    sweeps: map<nat, set<Conn>>,          // transports each running `closePending` has yet to close
    drained: bool)                        // some `closePending` has returned

  const INIT := State(Ledger(false, {}, {}, map[]), map[], map[], {}, {}, map[], false)

  datatype Event =
    | Wrap(c: Conn, authDeadline: int)
    | SetDeadline(c: Conn, t: Option<int>)
    | MarkReady(c: Conn)                  // first critical section of `authenticated`
    | Unpend(c: Conn)                     // its second
    | AdmitGuest(c: Conn, ip: string)
    | Close(c: Conn)
    | SweepBegin(k: nat)
    | SweepNext(k: nat, c: Conn)
    | SweepEnd(k: nat)

  /** `Close`: the once-guarded release.  A transport never wrapped cannot be closed. */
  ghost function Closed(s: State, c: Conn): State {
    if c !in s.limit || c in s.released then s
    else s.(ledger := Released(s.ledger, c), released := s.released + {c})
  }

  /** One atomic step; an event that is not enabled changes nothing. */
  ghost function Step(caps: Caps, s: State, e: Event): State {
    match e
    case Wrap(c, authDeadline) =>
      if c in s.limit || Refuses(caps, s.ledger) then s
      else s.(ledger := Wrapped(s.ledger, c), limit := s.limit[c := authDeadline],
              deadline := s.deadline[c := Some(authDeadline)])
    case SetDeadline(c, t) =>
      if c !in s.limit then s
      else s.(deadline := s.deadline[c := Clamped(c in s.ready, s.limit[c], t)])
    case MarkReady(c) =>
      if c !in s.limit then s else s.(ready := s.ready + {c}, deadline := s.deadline[c := None])
    case Unpend(c) =>
      if c !in s.ready then s else s.(ledger := Unpended(s.ledger, c))
    case AdmitGuest(c, ip) =>
      s.(ledger := Admitted(caps, s.ledger, c, ip))
    case Close(c) => Closed(s, c)
    case SweepBegin(k) =>
      if k in s.sweeps then s
      else s.(ledger := s.ledger.(closed := true), sweeps := s.sweeps[k := s.ledger.pending])
    case SweepNext(k, c) =>
      if k !in s.sweeps || c !in s.sweeps[k] then s
      else Closed(s, c).(sweeps := s.sweeps[k := s.sweeps[k] - {c}])
    case SweepEnd(k) =>
      if k !in s.sweeps || s.sweeps[k] != {} then s
      else s.(sweeps := s.sweeps - {k}, drained := true)
  }

  ghost function Exec(caps: Caps, es: seq<Event>): State {
    if es == [] then INIT else Step(caps, Exec(caps, es[..|es| - 1]), es[|es| - 1])
  }

  /** Every transport ever wrapped is either live or released, never both. */
  ghost predicate Partitioned(s: State) {
    && (forall c :: c in s.limit <==> c in s.ledger.connections || c in s.released)
    && (forall c :: c in s.released ==> c !in s.ledger.connections)
    && (forall c :: c in s.deadline <==> c in s.limit)
    && (forall c :: c in s.ready ==> c in s.limit)
  }

  /** Only authenticated transports have left the pending set while still live. */
  ghost predicate Vetted(s: State) {
    s.ledger.connections - s.ledger.pending <= s.ready
  }

  /** Before authentication a deadline is always set, no later than the transport's auth deadline. */
  ghost predicate Bounded(s: State) {
    forall c :: c in s.limit && c !in s.ready ==>
      c in s.deadline && s.deadline[c].Some? && s.deadline[c].value <= s.limit[c]
  }

  /** A running sweep still covers everything pending; after one has returned nothing is pending. */
  ghost predicate Draining(s: State) {
    && (s.sweeps != map[] || s.drained ==> s.ledger.closed)
    && (forall k :: k in s.sweeps ==> s.ledger.pending <= s.sweeps[k])
    && (s.drained ==> s.ledger.pending == {})
  }

  ghost predicate Shaped(s: State) {
    Nested(s.ledger) && Partitioned(s) && Vetted(s) && Bounded(s) && Draining(s)
  }

  lemma WrapIsSound(caps: Caps, l: Ledger<Conn>, c: Conn)
    requires Sound(caps, l) && !Refuses(caps, l)
    ensures Sound(caps, Wrapped(l, c))
  {
    assert l.guests.Keys <= Wrapped(l, c).connections;
  }

  lemma UnpendIsSound(caps: Caps, l: Ledger<Conn>, c: Conn)
    requires Sound(caps, l)
    ensures Sound(caps, Unpended(l, c))
  {}

  lemma ClosedIsSound(caps: Caps, s: State, c: Conn)
    requires Sound(caps, s.ledger)
    ensures Sound(caps, Closed(s, c).ledger)
  {
    ReleasedIsSound(caps, s.ledger, c);
  }

  lemma StepKeepsSound(caps: Caps, s: State, e: Event)
    requires Sound(caps, s.ledger)
    ensures Sound(caps, Step(caps, s, e).ledger)
  {
    match e
    case Wrap(c, _) => if c !in s.limit && !Refuses(caps, s.ledger) { WrapIsSound(caps, s.ledger, c); }
    case Unpend(c) => UnpendIsSound(caps, s.ledger, c);
    case AdmitGuest(c, ip) => AdmittedIsSound(caps, s.ledger, c, ip);
    case Close(c) => ClosedIsSound(caps, s, c);
    case SweepNext(k, c) => ClosedIsSound(caps, s, c);
    case _ => SilentIsSound(caps, s, e);
  }

  lemma SilentIsSound(caps: Caps, s: State, e: Event)
    requires Sound(caps, s.ledger) && (e.SetDeadline? || e.MarkReady? || e.SweepBegin? || e.SweepEnd?)
    ensures Sound(caps, Step(caps, s, e).ledger)
  {
    assert Step(caps, s, e).ledger.(closed := s.ledger.closed) == s.ledger;
  }

  lemma StepPersists(caps: Caps, s: State, e: Event)
    ensures s.released <= Step(caps, s, e).released && (s.drained ==> Step(caps, s, e).drained)
  {}

  lemma StepKeepsPartition(caps: Caps, s: State, e: Event)
    requires Nested(s.ledger) && Partitioned(s)
    ensures Nested(Step(caps, s, e).ledger) && Partitioned(Step(caps, s, e))
  {
    match e case Close(c) => case SweepNext(k, c) => case _ =>
  }

  lemma StepKeepsVetted(caps: Caps, s: State, e: Event)
    requires Vetted(s)
    ensures Vetted(Step(caps, s, e))
  {
    match e case Close(c) => case SweepNext(k, c) => case _ =>
  }

  lemma StepKeepsBounded(caps: Caps, s: State, e: Event)
    requires Partitioned(s) && Bounded(s)
    ensures Bounded(Step(caps, s, e))
  {
    match e case Close(c) => case SweepNext(k, c) => case _ =>
  }

  lemma StepKeepsDraining(caps: Caps, s: State, e: Event)
    requires Nested(s.ledger) && Partitioned(s) && Draining(s)
    ensures Draining(Step(caps, s, e))
  {
    match e case Close(c) => case SweepNext(k, c) => case _ =>
  }

  /** The ledger stays sound, within every cap, in every interleaving. */
  lemma {:induction false} EveryScheduleIsSound(caps: Caps, es: seq<Event>)
    ensures Sound(caps, Exec(caps, es).ledger) && Shaped(Exec(caps, es))
  {
    if es == [] {
      assert forall ip :: FromIp<Conn>(map[], ip) == {};
    } else {
      var s := Exec(caps, es[..|es| - 1]);
      EveryScheduleIsSound(caps, es[..|es| - 1]);
      StepKeepsSound(caps, s, es[|es| - 1]);
      StepKeepsPartition(caps, s, es[|es| - 1]);
      StepKeepsVetted(caps, s, es[|es| - 1]);
      StepKeepsBounded(caps, s, es[|es| - 1]);
      StepKeepsDraining(caps, s, es[|es| - 1]);
    }
  }

  lemma {:induction false} Persists(caps: Caps, es: seq<Event>, later: seq<Event>)
    ensures Exec(caps, es).released <= Exec(caps, es + later).released
    ensures Exec(caps, es).drained ==> Exec(caps, es + later).drained
  {
    if later == [] {
      assert es + later == es;
    } else {
      var before := es + later[..|later| - 1];
      Persists(caps, es, later[..|later| - 1]);
      assert (es + later)[..|es + later| - 1] == before;
      assert (es + later)[|es + later| - 1] == later[|later| - 1];
      StepPersists(caps, Exec(caps, before), later[|later| - 1]);
    }
  }

  /** After one `closePending` has returned, whatever follows, nothing is pending again. */
  lemma NothingPendingAfterShutdown(caps: Caps, es: seq<Event>, later: seq<Event>)
    requires Exec(caps, es).drained
    ensures Exec(caps, es + later).ledger.pending == {}
  {
    Persists(caps, es, later);
    EveryScheduleIsSound(caps, es + later);
  }

  /** A released transport is never live again, so its slot is given back exactly once. */
  lemma ReleasedForGood(caps: Caps, es: seq<Event>, later: seq<Event>, c: Conn)
    requires c in Exec(caps, es).released
    ensures c in Exec(caps, es + later).released && c !in Exec(caps, es + later).ledger.connections
  {
    Persists(caps, es, later);
    EveryScheduleIsSound(caps, es + later);
  }

  // ----------------------------------------------------- what each step does to the ledger

  /** A transport is live from the step that wraps it to the one that closes it, and at no other time. */
  lemma LiveStep(caps: Caps, s: State, e: Event, c: Conn)
    requires Partitioned(s)
    ensures c in Step(caps, s, e).ledger.connections <==>
              if e.Wrap? && e.c == c then
                c in s.ledger.connections
                || (c !in s.limit && !s.ledger.closed
                    && |s.ledger.pending| < caps.pending && |s.ledger.connections| < caps.connections)
              else if e == Close(c) then false
              else if e.SweepNext? && e.c == c && e.k in s.sweeps && c in s.sweeps[e.k] then false
              else c in s.ledger.connections
  {
    match e case Wrap(_, _) => case Close(_) => case SweepNext(_, _) => case AdmitGuest(_, _) => case _ =>
  }

  /** It is pending from then until it is authenticated or closed. */
  lemma PendingStep(caps: Caps, s: State, e: Event, c: Conn)
    requires Partitioned(s) && Nested(s.ledger)
    ensures c in Step(caps, s, e).ledger.pending <==>
              if e.Wrap? && e.c == c && c !in s.limit then
                !s.ledger.closed && |s.ledger.pending| < caps.pending && |s.ledger.connections| < caps.connections
              else if e == Close(c) || (e == Unpend(c) && c in s.ready) then false
              else if e.SweepNext? && e.c == c && e.k in s.sweeps && c in s.sweeps[e.k] then false
              else c in s.ledger.pending
  {
    match e case Wrap(_, _) => case Close(_) => case SweepNext(_, _) => case AdmitGuest(_, _) => case _ =>
  }

  /** It is a guest from the step that admits it to the one that closes it, under the address it was admitted with. */
  lemma GuestStep(caps: Caps, s: State, e: Event, c: Conn)
    requires Partitioned(s) && Nested(s.ledger)
    ensures var before, after := s.ledger.guests, Step(caps, s, e).ledger.guests;
            && (c in after <==>
                  if e.AdmitGuest? && e.c == c && c !in before then
                    !s.ledger.closed && c in s.ledger.connections
                    && |before| < caps.guests && |FromIp(before, e.ip)| < caps.perIp
                  else if e == Close(c) then false
                  else if e.SweepNext? && e.c == c && e.k in s.sweeps && c in s.sweeps[e.k] then false
                  else c in before)
            && (c in after && c in before ==> after[c] == before[c])
            && (c in after && c !in before ==> e == AdmitGuest(c, after[c]))
  {
    match e case Wrap(_, _) => case Close(_) => case SweepNext(_, _) => case AdmitGuest(_, _) => case _ =>
  }

  /** Readiness and shutdown are never taken back, and each has its one step. */
  lemma FlagStep(caps: Caps, s: State, e: Event, c: Conn)
    ensures c in Step(caps, s, e).ready <==> c in s.ready || (e == MarkReady(c) && c in s.limit)
    ensures Step(caps, s, e).ledger.closed <==> s.ledger.closed || (e.SweepBegin? && e.k !in s.sweeps)
  {
    match e case Close(_) => case SweepNext(_, _) => case _ =>
  }

  lemma ExecSnoc(caps: Caps, es: seq<Event>, e: Event)
    ensures Exec(caps, es + [e]) == Step(caps, Exec(caps, es), e)
  {
    assert (es + [e])[..|es + [e]| - 1] == es;
  }

  /** A deadline asked for is clamped until the transport is ready, and becoming ready lifts it. */
  lemma DeadlinesAreExact(caps: Caps, es: seq<Event>, c: Conn, t: Option<int>)
    requires c in Exec(caps, es).limit
    ensures var s, asked := Exec(caps, es), Exec(caps, es + [SetDeadline(c, t)]);
            && c in asked.deadline
            && asked.deadline[c] == if c !in s.ready && (t.None? || t.value > s.limit[c]) then Some(s.limit[c]) else t
    ensures var ready := Exec(caps, es + [MarkReady(c)]);
            c in ready.ready && c in ready.deadline && ready.deadline[c] == None
  {
    ExecSnoc(caps, es, SetDeadline(c, t));
    ExecSnoc(caps, es, MarkReady(c));
  }

  /** A guest that may be admitted is recorded at once, with its address, and the address counts it. */
  lemma AdmissionIsRecorded(caps: Caps, es: seq<Event>, c: Conn, ip: string)
    requires Admits(caps, Exec(caps, es).ledger, c, ip)
    ensures var before, after := Exec(caps, es).ledger.guests, Exec(caps, es + [AdmitGuest(c, ip)]).ledger.guests;
            && c in after && (c !in before ==> after == before[c := ip])
            && (c !in before ==> |FromIp(after, ip)| == |FromIp(before, ip)| + 1)
  {
    var before := Exec(caps, es).ledger.guests;
    ExecSnoc(caps, es, AdmitGuest(c, ip));
    if c !in before {
      FromIpGrows(before, c, ip, ip);
    }
  }

  /** The transport has been released, or is a guest under this address. */
  ghost predicate GuestOrGone(s: State, c: Conn, ip: string) {
    c in s.released || (c in s.ledger.guests && s.ledger.guests[c] == ip)
  }

  lemma GuestStays(caps: Caps, s: State, e: Event, c: Conn, ip: string)
    requires Shaped(s) && GuestOrGone(s, c, ip)
    ensures GuestOrGone(Step(caps, s, e), c, ip)
  {
    StepPersists(caps, s, e);
    if c !in s.released {
      GuestStep(caps, s, e, c);
      match e case Close(_) => case SweepNext(_, _) => case _ =>
    }
  }

  /** Once recorded, a guest stays recorded, under the same address, until its transport is released. */
  lemma {:induction false} GuestsStay(caps: Caps, es: seq<Event>, later: seq<Event>, c: Conn, ip: string)
    requires GuestOrGone(Exec(caps, es), c, ip)
    ensures GuestOrGone(Exec(caps, es + later), c, ip)
  {
    if later == [] {
      assert es + later == es;
    } else {
      var before, e := es + later[..|later| - 1], later[|later| - 1];
      GuestsStay(caps, es, later[..|later| - 1], c, ip);
      assert es + later == before + [e];
      ExecSnoc(caps, before, e);
      EveryScheduleIsSound(caps, before);
      GuestStays(caps, Exec(caps, before), e, c, ip);
    }
  }

  /** A shutdown can always finish: with a fresh sweep, whatever is pending is closed and the sweep returns. */
  lemma ShutdownCanFinish(caps: Caps, es: seq<Event>, k: nat) returns (es': seq<Event>)
    requires k !in Exec(caps, es).sweeps
    ensures es <= es' && Exec(caps, es').drained && Exec(caps, es').ledger.closed
    ensures Exec(caps, es').ledger.pending == {}
  {
    ExecSnoc(caps, es, SweepBegin(k));
    es' := SweepCanFinish(caps, es + [SweepBegin(k)], k);
    EveryScheduleIsSound(caps, es');
  }

  lemma {:induction false} SweepCanFinish(caps: Caps, es: seq<Event>, k: nat) returns (es': seq<Event>)
    requires k in Exec(caps, es).sweeps
    ensures es <= es' && Exec(caps, es').drained && k !in Exec(caps, es').sweeps
    decreases |Exec(caps, es).sweeps[k]|
  {
    var rest := Exec(caps, es).sweeps[k];
    if rest == {} {
      ExecSnoc(caps, es, SweepEnd(k));
      es' := es + [SweepEnd(k)];
    } else {
      var c :| c in rest;
      ExecSnoc(caps, es, SweepNext(k, c));
      assert Exec(caps, es + [SweepNext(k, c)]).sweeps == Exec(caps, es).sweeps[k := rest - {c}];
      es' := SweepCanFinish(caps, es + [SweepNext(k, c)], k);
    }
    EveryScheduleIsSound(caps, es');
  }

  /** The configured limits; nothing is assumed about how they compare. */
  datatype Config = Config(maxConnections: nat, maxPendingAuth: nat, maxGuestSessions: nat, maxGuestSessionsPerIp: nat)

  ghost function CapsOf(c: Config): Caps {
    Caps(c.maxPendingAuth, c.maxConnections + c.maxPendingAuth, c.maxGuestSessions, c.maxGuestSessionsPerIp)
  }

  ghost function KeyedLive(s: State): set<Conn> {
    set c | c in s.ledger.connections && c in s.ready && c !in s.ledger.guests
  }

  /**
   A transport refused for total capacity means the keyed reserve is full of authenticated keyed
   transports: guests and half-open connections alone can never use it up.
   */
  lemma RefusalMeansReserveUsed(config: Config, es: seq<Event>)
    requires |Exec(CapsOf(config), es).ledger.connections| >= CapsOf(config).connections
    ensures |KeyedLive(Exec(CapsOf(config), es))| >= config.maxConnections - config.maxGuestSessions
  {
    var s := Exec(CapsOf(config), es);
    EveryScheduleIsSound(CapsOf(config), es);
    var l := s.ledger;
    assert l.connections <= KeyedLive(s) + (l.pending + l.guests.Keys);
    Union(KeyedLive(s), l.pending + l.guests.Keys);
    Union(l.pending, l.guests.Keys);
    SubsetSize(l.connections, KeyedLive(s) + (l.pending + l.guests.Keys));
  }

  /** In every schedule the live transports keep within the limits as they were configured. */
  lemma ConfiguredCapsHold(config: Config, es: seq<Event>)
    ensures var l := Exec(CapsOf(config), es).ledger;
            && |l.connections| <= config.maxConnections + config.maxPendingAuth
            && |l.pending| <= config.maxPendingAuth && |l.guests| <= config.maxGuestSessions
            && forall ip :: |FromIp(l.guests, ip)| <= config.maxGuestSessionsPerIp
  {
    EveryScheduleIsSound(CapsOf(config), es);
  }

  lemma Union<T>(a: set<T>, b: set<T>)
    ensures |a + b| <= |a| + |b|
  {}
}
