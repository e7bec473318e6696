/**
 One-slot poke channels: writers commit a change that can be seen and then notify; owners take a token and
 then re-read.  Shared by the registry's and the banner's subscriptions.
 */
module Wakeups {

  type Chan = nat
  type Writer = nat

  /** The subscribed channels, those holding a buffered poke, and those closed. */
  datatype Board<C> = Board(subs: set<C>, tokens: set<C>, closed: set<C>)

  function Joined<C>(b: Board<C>, c: C): Board<C> {
    b.(subs := b.subs + {c})
  }

  /** Only a subscribed channel is removed, and closed as it is. */
  function Left<C>(b: Board<C>, c: C): Board<C> {
    if c in b.subs then b.(subs := b.subs - {c}, closed := b.closed + {c}) else b
  }

  function AllLeft<C>(b: Board<C>): Board<C> {
    b.(subs := {}, closed := b.closed + b.subs)
  }

  /** Pokes some channels; one that has a token keeps it. */
  function Poked<C>(b: Board<C>, cs: set<C>): Board<C> {
    b.(tokens := b.tokens + cs)
  }

  datatype State<V> = State(
    value: V,                               // what a snapshot shows
    epoch: nat,                             // notified changes committed so far
    made: nat,                              // channels ever made
    board: Board<Chan>,
    seen: map<Chan, nat>,                   // the epoch of each owner's last snapshot
    shown: map<Chan, V>,                    // what that snapshot showed
    due: set<Chan>,                         // owners that took a token, or just subscribed, and have yet to read
    owing: set<Writer>,                     // writers between their unlock and their notify
    notifying: map<Writer, set<Chan>>,      // writers holding the read lock, and whom they have yet to poke
    panicked: bool)                         // a send on, or a close of, a closed channel

  /** `Commit` makes a change under the lock that its writer will notify. */
  datatype Event<V> =
    | Commit(w: Writer, value: V) | NotifyBegin(w: Writer) | Poke(w: Writer, c: Chan) | NotifyEnd(w: Writer)
    | Subscribe | Unsubscribe(c: Chan) | CloseAll
    | Take(c: Chan) | Read(c: Chan)

  function Init<V>(value: V): State<V> {
    State(value, 0, 0, Board({}, {}, {}), map[], map[], {}, {}, map[], false)
  }

  /** The exclusive lock can be had only while nobody holds the read lock across steps. */
  predicate Unlocked<V>(s: State<V>) {
    s.notifying == map[]
  }

  predicate CanCommit<V>(s: State<V>, w: Writer) {
    Unlocked(s) && w !in s.owing
  }

  /** One atomic step; an event that is not enabled changes nothing. */
  ghost function Step<V>(s: State<V>, e: Event<V>): State<V> {
    match e
    case Commit(w, value) =>
      if !CanCommit(s, w) then s
      else s.(value := value, epoch := s.epoch + 1, owing := s.owing + {w})
    case NotifyBegin(w) =>
      if w !in s.owing || w in s.notifying then s
      else s.(owing := s.owing - {w}, notifying := s.notifying[w := s.board.subs])
    case Poke(w, c) =>
      if w !in s.notifying || c !in s.notifying[w] then s
      else if c in s.board.closed then s.(panicked := true)
      else s.(board := Poked(s.board, {c}), notifying := s.notifying[w := s.notifying[w] - {c}])
    case NotifyEnd(w) =>
      if w !in s.notifying || s.notifying[w] != {} then s else s.(notifying := s.notifying - {w})
    case Subscribe =>
      if !Unlocked(s) then s
      else
        s.(made := s.made + 1, board := Joined(s.board, s.made), seen := s.seen[s.made := 0], due := s.due + {s.made})
    case Unsubscribe(c) =>
      if !Unlocked(s) then s
      else s.(board := Left(s.board, c), panicked := s.panicked || (c in s.board.subs && c in s.board.closed))
    case CloseAll =>
      if !Unlocked(s) then s
      else s.(board := AllLeft(s.board), panicked := s.panicked || s.board.subs * s.board.closed != {})
    case Take(c) =>
      if c !in s.board.tokens then s else s.(board := s.board.(tokens := s.board.tokens - {c}), due := s.due + {c})
    case Read(c) =>
      if c !in s.seen then s else s.(seen := s.seen[c := s.epoch], shown := s.shown[c := s.value], due := s.due - {c})
  }

  ghost function Exec<V>(first: V, es: seq<Event<V>>): State<V> {
    if es == [] then Init(first) else Step(Exec(first, es[..|es| - 1]), es[|es| - 1])
  }

  ghost predicate PokeComing<V>(s: State<V>, c: Chan) {
    s.owing != {} || exists w :: w in s.notifying && c in s.notifying[w]
  }

  /** An owner behind the latest change has a token, is about to read, or is about to be poked. */
  ghost predicate NotLost<V>(s: State<V>, c: Chan) {
    && c in s.seen && (s.seen[c] < s.epoch ==> c in s.board.tokens || c in s.due || PokeComing(s, c))
    && (c !in s.due ==> c in s.shown)
  }

  ghost predicate ChannelsOk<V>(s: State<V>) {
    && !s.panicked
    && (forall c :: c in s.board.subs ==> c < s.made && c !in s.board.closed)
    && (forall c :: c in s.board.closed ==> c < s.made)
    && (forall c :: c in s.seen ==> c < s.made && s.seen[c] <= s.epoch)
    && (forall c :: c in s.shown ==> c < s.made)
    && (forall c :: c in s.shown && c in s.seen && s.seen[c] == s.epoch ==> s.shown[c] == s.value)
    && (forall w, c :: w in s.notifying && c in s.notifying[w] ==> c in s.board.subs)
  }

  lemma StepKeepsChannels<V>(s: State<V>, e: Event<V>)
    requires ChannelsOk(s)
    ensures ChannelsOk(Step(s, e))
  {}

  lemma StepKeepsWakeup<V>(s: State<V>, e: Event<V>, c: Chan)
    requires ChannelsOk(s) && c in Step(s, e).board.subs && (c in s.board.subs ==> NotLost(s, c))
    ensures NotLost(Step(s, e), c)
  {
    var t := Step(s, e);
    match e
    case NotifyBegin(w) =>
      if t != s {
        assert w in t.notifying && c in t.notifying[w];
      }
    case Poke(w, d) => if c != d && PokeComing(s, c) { Carry(s, t, c); }
    case NotifyEnd(w) => if PokeComing(s, c) { Carry(s, t, c); }
    case _ =>
  }

  lemma Carry<V>(s: State<V>, t: State<V>, c: Chan)
    requires PokeComing(s, c) && s.owing == t.owing
    requires forall w :: w in s.notifying && c in s.notifying[w] ==> w in t.notifying && c in t.notifying[w]
    ensures PokeComing(t, c)
  {
    if s.owing == {} {
      var w :| w in s.notifying && c in s.notifying[w];
      assert w in t.notifying && c in t.notifying[w];
    }
  }

  lemma {:induction false} EveryScheduleKeepsWakeups<V>(first: V, es: seq<Event<V>>)
    ensures ChannelsOk(Exec(first, es)) && forall c :: c in Exec(first, es).board.subs ==> NotLost(Exec(first, es), c)
  {
    if es != [] {
      var s, e := Exec(first, es[..|es| - 1]), es[|es| - 1];
      EveryScheduleKeepsWakeups(first, es[..|es| - 1]);
      StepKeepsChannels(s, e);
      forall c | c in Step(s, e).board.subs ensures NotLost(Step(s, e), c) {
        StepKeepsWakeup(s, e, c);
      }
    }
  }

  // ------------------------------------------------------------------ results

  /** No interleaving pokes a channel that was closed, or closes one twice: what may be poked or closed is open. */
  lemma NeverPanics<V>(first: V, es: seq<Event<V>>)
    ensures var s := Exec(first, es);
            && !s.panicked && s.board.subs !! s.board.closed
            && forall w, c :: w in s.notifying && c in s.notifying[w] ==> c !in s.board.closed
  {
    EveryScheduleKeepsWakeups(first, es);
  }

  /**
   Nothing is lost: once no writer is about to poke, what a subscribed owner with nothing left to do was last
   shown is what there is to show.
   */
  lemma QuietOwnersAreUpToDate<V>(first: V, es: seq<Event<V>>, c: Chan)
    requires c in Exec(first, es).board.subs && Exec(first, es).owing == {} && Exec(first, es).notifying == map[]
    requires c !in Exec(first, es).board.tokens && c !in Exec(first, es).due
    ensures c in Exec(first, es).shown && Exec(first, es).shown[c] == Exec(first, es).value
  {
    EveryScheduleKeepsWakeups(first, es);
  }

  /** A change committed after an owner's last snapshot reaches it unless something below is still under way. */
  lemma NoLostWakeup<V>(first: V, es: seq<Event<V>>, c: Chan)
    requires c in Exec(first, es).board.subs
    requires c in Exec(first, es).seen && Exec(first, es).seen[c] < Exec(first, es).epoch
    ensures var s := Exec(first, es);
            || c in s.board.tokens || c in s.due || s.owing != {}
            || exists w :: w in s.notifying && c in s.notifying[w]
  {
    EveryScheduleKeepsWakeups(first, es);
  }

  // -------------------------------------------------- who is subscribed, from the schedule

  /** Some enabled `Subscribe` made this channel, and no enabled `Unsubscribe` of it or `CloseAll` has come since. */
  ghost predicate SubscribedBy<V>(first: V, es: seq<Event<V>>, c: Chan) {
    es != [] &&
    var before, e := Exec(first, es[..|es| - 1]), es[|es| - 1];
    if !Unlocked(before) then SubscribedBy(first, es[..|es| - 1], c)
    else if e.Subscribe? && c == before.made then true
    else if e == Unsubscribe(c) || e.CloseAll? then false
    else SubscribedBy(first, es[..|es| - 1], c)
  }

  lemma SubscriptionStep<V>(s: State<V>, e: Event<V>, c: Chan)
    requires c in s.board.closed <==> c < s.made && c !in s.board.subs
    requires c in s.board.subs ==> c < s.made
    ensures c in Step(s, e).board.subs <==>
              if !Unlocked(s) then c in s.board.subs
              else if e.Subscribe? && c == s.made then true
              else if e == Unsubscribe(c) || e.CloseAll? then false
              else c in s.board.subs
    ensures c in Step(s, e).board.closed <==> c < Step(s, e).made && c !in Step(s, e).board.subs
  {}

  /** A channel ever handed out is subscribed exactly when the schedule says so, and closed otherwise. */
  lemma {:induction false} SubscribersAreTheSchedules<V>(first: V, es: seq<Event<V>>, c: Chan)
    ensures c in Exec(first, es).board.subs <==> SubscribedBy(first, es, c)
    ensures c in Exec(first, es).board.closed <==> c < Exec(first, es).made && c !in Exec(first, es).board.subs
  {
    if es != [] {
      SubscribersAreTheSchedules(first, es[..|es| - 1], c);
      EveryScheduleKeepsWakeups(first, es[..|es| - 1]);
      SubscriptionStep(Exec(first, es[..|es| - 1]), es[|es| - 1], c);
    }
  }

  lemma ExecSnoc<V>(first: V, es: seq<Event<V>>, e: Event<V>)
    ensures Exec(first, es + [e]) == Step(Exec(first, es), e)
  {
    assert (es + [e])[..|es + [e]| - 1] == es;
  }

  /** Whenever the lock can be had, subscribing makes a new channel that is subscribed, open and without a token. */
  lemma SubscribingSubscribes<V>(first: V, es: seq<Event<V>>)
    requires Unlocked(Exec(first, es))
    ensures var s, t := Exec(first, es), Exec(first, es + [Subscribe]);
            && t.made == s.made + 1 && s.made !in s.board.subs && t.board.subs == s.board.subs + {s.made}
            && s.made !in t.board.closed && t.board.tokens == s.board.tokens
  {
    EveryScheduleKeepsWakeups(first, es);
    ExecSnoc(first, es, Subscribe);
  }

  /** A change that can have the lock shows and is owed a notify; a notify that is not owed pokes nobody. */
  lemma CommittingCommits<V>(first: V, es: seq<Event<V>>, w: Writer, value: V)
    ensures CanCommit(Exec(first, es), w) ==>
              var s, t := Exec(first, es), Exec(first, es + [Commit(w, value)]);
              t.value == value && t.epoch == s.epoch + 1 && t.owing == s.owing + {w} && t.board == s.board
    ensures w !in Exec(first, es).owing ==> Exec(first, es + [NotifyBegin(w)]) == Exec(first, es)
  {
    ExecSnoc(first, es, Commit(w, value));
    ExecSnoc(first, es, NotifyBegin(w));
  }

  /** While a notify is under way nobody changes the value, subscribes, unsubscribes or closes. */
  lemma NotifyingExcludes<V>(first: V, es: seq<Event<V>>, e: Event<V>)
    requires Exec(first, es).notifying != map[] && (e.Commit? || e.Subscribe? || e.Unsubscribe? || e.CloseAll?)
    ensures Exec(first, es + [e]) == Exec(first, es)
  {
    ExecSnoc(first, es, e);
  }

  /** Taking a token leaves none, and a read shows what there is to show then. */
  lemma TakingAndReading<V>(first: V, es: seq<Event<V>>, c: Chan)
    ensures c !in Exec(first, es + [Take(c)]).board.tokens
    ensures c in Exec(first, es).seen ==>
              var t := Exec(first, es + [Read(c)]); c in t.shown && t.shown[c] == Exec(first, es).value
    ensures forall d :: d != c ==>
              (d in Exec(first, es + [Take(c)]).board.tokens <==> d in Exec(first, es).board.tokens)
  {
    ExecSnoc(first, es, Take(c));
    ExecSnoc(first, es, Read(c));
  }

  // ---------------------------------------------------------- every owner can catch up

  /** The remaining work of writers and owners: no new change, no subscription made or ended. */
  predicate Finishes<V>(e: Event<V>) {
    e.NotifyBegin? || e.Poke? || e.NotifyEnd? || e.Take? || e.Read?
  }

  /** The second schedule continues the first with remaining work only, and shows the same to the same subscribers. */
  ghost predicate Continues<V>(first: V, es: seq<Event<V>>, es': seq<Event<V>>) {
    && es <= es' && (forall i :: |es| <= i < |es'| ==> Finishes(es'[i]))
    && Exec(first, es').board.subs == Exec(first, es).board.subs && Exec(first, es').value == Exec(first, es).value
  }

  lemma Then<V>(first: V, es: seq<Event<V>>, e: Event<V>) returns (es': seq<Event<V>>)
    requires Finishes(e)
    ensures Continues(first, es, es') && Exec(first, es') == Step(Exec(first, es), e)
  {
    ExecSnoc(first, es, e);
    EveryScheduleKeepsWakeups(first, es);
    es' := es + [e];
  }

  /** A notify that has begun can poke everyone and end. */
  lemma {:induction false} NotifyCanEnd<V>(first: V, es: seq<Event<V>>, w: Writer) returns (es': seq<Event<V>>)
    requires w in Exec(first, es).notifying
    ensures Continues(first, es, es') && Exec(first, es').owing == Exec(first, es).owing
    ensures Exec(first, es').notifying == Exec(first, es).notifying - {w}
    decreases |Exec(first, es).notifying[w]|
  {
    var rest := Exec(first, es).notifying[w];
    EveryScheduleKeepsWakeups(first, es);
    if rest == {} {
      es' := Then(first, es, NotifyEnd(w));
    } else {
      var c :| c in rest;
      es' := Then(first, es, Poke(w, c));
      assert Exec(first, es').notifying == Exec(first, es).notifying[w := rest - {c}];
      es' := NotifyCanEnd(first, es', w);
    }
  }

  lemma {:induction false} NotifiesCanEnd<V>(first: V, es: seq<Event<V>>) returns (es': seq<Event<V>>)
    ensures Continues(first, es, es') && Exec(first, es').owing == Exec(first, es).owing
    ensures Exec(first, es').notifying == map[]
    decreases |Exec(first, es).notifying|
  {
    es' := es;
    if Exec(first, es).notifying != map[] {
      var w :| w in Exec(first, es).notifying;
      es' := NotifyCanEnd(first, es, w);
      assert Exec(first, es).notifying.Keys == Exec(first, es').notifying.Keys + {w};
      es' := NotifiesCanEnd(first, es');
    }
  }

  lemma {:induction false} WritersCanFinish<V>(first: V, es: seq<Event<V>>) returns (es': seq<Event<V>>)
    requires Exec(first, es).notifying == map[]
    ensures Continues(first, es, es') && Exec(first, es').owing == {} && Exec(first, es').notifying == map[]
    decreases |Exec(first, es).owing|
  {
    es' := es;
    if Exec(first, es).owing != {} {
      var w :| w in Exec(first, es).owing;
      es' := Then(first, es, NotifyBegin(w));
      es' := NotifyCanEnd(first, es', w);
      assert Exec(first, es').owing == Exec(first, es).owing - {w};
      es' := WritersCanFinish(first, es');
    }
  }

  /**
   From every reachable state, a subscribed owner can be shown what there is to show: the writers finish, it
   takes its token and reads, and then nothing is left to do for it.
   */
  lemma OwnersCanCatchUp<V>(first: V, es: seq<Event<V>>, c: Chan) returns (es': seq<Event<V>>)
    requires c in Exec(first, es).board.subs
    ensures Continues(first, es, es')
    ensures var t := Exec(first, es');
            && t.owing == {} && t.notifying == map[] && c in t.board.subs && c !in t.board.tokens && c !in t.due
            && c in t.shown && t.shown[c] == Exec(first, es).value
  {
    EveryScheduleKeepsWakeups(first, es);
    es' := NotifiesCanEnd(first, es);
    es' := WritersCanFinish(first, es');
    es' := Then(first, es', Take(c));
    EveryScheduleKeepsWakeups(first, es');
    es' := Then(first, es', Read(c));
  }

  // ------------------------------------------------------------- the Go objects

  class PokeChannel {
    var token: bool
    var closed: bool

    constructor ()
      ensures !token && !closed
    {
      token, closed := false, false;
    }
  }

  class Subscribers {
    var subs: set<PokeChannel>
    ghost var made: set<PokeChannel>   // every channel ever handed out

    ghost predicate Valid() reads this, made {
      subs <= made && forall ch :: ch in subs ==> !ch.closed
    }

    ghost function View(): Board<PokeChannel> reads this, made {
      Board(subs, set ch | ch in made && ch.token, set ch | ch in made && ch.closed)
    }

    constructor ()
      ensures Valid() && made == {} && View() == Board({}, {}, {})
    {
      subs, made := {}, {};
    }

    method Subscribe() returns (ch: PokeChannel)
      requires Valid()
      modifies this
      ensures Valid() && fresh(ch) && made == old(made) + {ch} && View() == Joined(old(View()), ch)
      ensures subs == old(subs) + {ch} && !ch.token && !ch.closed
    {
      ch := new PokeChannel();
      subs, made := subs + {ch}, made + {ch};
    }

    /** Closes a subscribed channel; any other, or one already closed, is left alone. */
    method Unsubscribe(ch: PokeChannel)
      requires Valid()
      modifies `subs, ch`closed
      ensures Valid() && View() == Left(old(View()), ch) && subs == old(subs) - {ch}
      ensures ch.closed <==> ch in old(subs) || old(ch.closed)
    {
      if ch in subs {
        subs := subs - {ch};
        ch.closed := true;
      }
    }

    /** Leaves a token in every subscribed channel, without blocking on one that has it already. */
    method Notify()
      requires Valid()
      modifies subs`token
      ensures Valid() && View() == Poked(old(View()), subs) && forall ch :: ch in subs ==> ch.token
    {
      var rest := subs;
      while rest != {}
        invariant rest <= subs && View() == Poked(old(View()), subs - rest)
        decreases rest
      {
        var ch :| ch in rest;
        ghost var before := View();
        if !ch.token {
          ch.token := true;
        }
        assert View().tokens == before.tokens + {ch} && View().closed == before.closed;
        assert subs - (rest - {ch}) == subs - rest + {ch};
        rest := rest - {ch};
      }
    }

    method CloseAll()
      requires Valid()
      modifies `subs, subs`closed
      ensures Valid() && View() == AllLeft(old(View()))
      ensures subs == {} && forall ch :: ch in old(subs) ==> ch.closed
    {
      ghost var all := subs;
      while subs != {}
        invariant Valid() && subs <= all
        invariant View() == old(View()).(subs := subs, closed := old(View()).closed + (all - subs))
        decreases subs
      {
        var ch :| ch in subs;
        subs := subs - {ch};
        ch.closed := true;
      }
    }
  }
}
