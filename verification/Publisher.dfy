/** The player-count document: how it is built, and the start and stop of the goroutine that publishes it. */
module Publisher {
  import opened Games
  import opened Presence

  // -------------------------------------------------------------- the document

  const SCHEMA_VERSION := 1
  const SECOND := 1_000_000_000

  datatype GameSnapshot = GameSnapshot(id: string, name: string, online: bool, players: nat)

  datatype Snapshot = Snapshot(
    version: nat, online: bool, updatedAt: int, intervalSeconds: int, players: nat, sessions: nat, inLobby: nat,
    games: seq<GameSnapshot>)

  /** Every game in menu order; the offline document shows no player and every game down. */
  method Build(online: bool, tally: Counts, games: seq<GameStatus>, now: int, interval: nat) returns (snap: Snapshot)
    ensures snap.version == SCHEMA_VERSION && snap.online == online
    ensures snap.updatedAt <= now < snap.updatedAt + SECOND && snap.updatedAt % SECOND == 0
    ensures snap.intervalSeconds * SECOND <= interval < (snap.intervalSeconds + 1) * SECOND
    ensures online ==> snap.players == tally.players && snap.sessions == tally.sessions && snap.inLobby == tally.inLobby
    ensures !online ==> snap.players == snap.sessions == snap.inLobby == 0
    ensures |snap.games| == |games|
    ensures forall i :: 0 <= i < |games| ==>
              && snap.games[i].id == games[i].game.id && snap.games[i].name == games[i].game.name
              && (snap.games[i].online <==> online && games[i].online)
              && (snap.games[i].players > 0 ==> online && games[i].game.id in tally.games)
              && (online && games[i].game.id in tally.games ==> snap.games[i].players == tally.games[games[i].game.id])
  {
    snap := Snapshot(SCHEMA_VERSION, online, now - now % SECOND, interval / SECOND, 0, 0, 0, []);
    if online {
      snap := snap.(players := tally.players, sessions := tally.sessions, inLobby := tally.inLobby);
    }
    var rows: seq<GameSnapshot> := [];
    for i := 0 to |games|
      invariant |rows| == i
      invariant forall j :: 0 <= j < i ==>
                  && rows[j].id == games[j].game.id && rows[j].name == games[j].game.name
                  && (rows[j].online <==> online && games[j].online)
                  && rows[j].players ==
                     if online && games[j].game.id in tally.games then tally.games[games[j].game.id] else 0
    {
      var row := GameSnapshot(games[i].game.id, games[i].game.name, false, 0);
      if online {
        row := row.(players := if row.id in tally.games then tally.games[row.id] else 0);
        if games[i].online {
          row := row.(online := true);
        }
      }
      rows := rows + [row];
    }
    snap := snap.(games := rows);
  }

  // ------------------------------------------------------------- the lifecycle

  datatype Once = Fresh | Running | Complete

  /** Progress of the one `Start` body, the loop goroutine, and the one `Close` body. */
  datatype Starter = NotStarted | FirstPublish | Spawning | Started
  datatype Loop = NoLoop | Waiting | Publishing | Exiting | Gone
  datatype Closer = NotClosing | Begun | Stopped | InStartOnce | Awaiting | LastPublish | Closed

  datatype State = State(
    startOnce: Once, closeOnce: Once, starter: Starter, loop: Loop, closer: Closer,
    stop: bool, done: bool,           // the two channels, once closed
    documents: seq<bool>,             // every document built, by its `online` flag
    panicked: bool)                   // a close of a closed channel

  const INIT := State(Fresh, Fresh, NotStarted, NoLoop, NotClosing, false, false, [], false)

  datatype Event =
    | StartEnter | StartPublished | StartSpawn
    | Tick | TickPublished | LoopStop | LoopExit
    | CloseEnter | CloseStop | CloseTakeStart | CloseFinishStart | CloseSkipStart | CloseWait | CloseReturn

  /** One atomic step; an event that is not enabled (a blocked thread, a completed `Once`) changes nothing. */
  function Step(s: State, e: Event): State {
    match e
    case StartEnter =>
      if s.startOnce != Fresh then s
      else s.(startOnce := Running, starter := FirstPublish, documents := s.documents + [true])
    case StartPublished => if s.starter == FirstPublish then s.(starter := Spawning) else s
    case StartSpawn =>
      if s.starter == Spawning then s.(starter := Started, loop := Waiting, startOnce := Complete) else s
    case Tick => if s.loop == Waiting then s.(loop := Publishing, documents := s.documents + [true]) else s
    case TickPublished => if s.loop == Publishing then s.(loop := Waiting) else s
    case LoopStop => if s.loop == Waiting && s.stop then s.(loop := Exiting) else s
    case LoopExit =>
      if s.loop == Exiting then s.(loop := Gone, done := true, panicked := s.panicked || s.done) else s
    case CloseEnter =>
      if s.closeOnce == Fresh then s.(closeOnce := Running, closer := Begun) else s
    case CloseStop =>
      if s.closer == Begun then s.(closer := Stopped, stop := true, panicked := s.panicked || s.stop) else s
    case CloseTakeStart =>
      if s.closer == Stopped && s.startOnce == Fresh then s.(closer := InStartOnce, startOnce := Running) else s
    case CloseFinishStart =>
      if s.closer == InStartOnce then
        s.(closer := Awaiting, startOnce := Complete, done := true, panicked := s.panicked || s.done)
      else s
    case CloseSkipStart => if s.closer == Stopped && s.startOnce == Complete then s.(closer := Awaiting) else s
    case CloseWait =>
      if s.closer == Awaiting && s.done then s.(closer := LastPublish, documents := s.documents + [false]) else s
    case CloseReturn =>
      if s.closer == LastPublish then s.(closer := Closed, closeOnce := Complete) else s
  }

  function Exec(es: seq<Event>): State {
    if es == [] then INIT else Step(Exec(es[..|es| - 1]), es[|es| - 1])
  }

  /** How many threads are inside `publish`, where the unguarded `failing` flag is read and written. */
  function InPublish(s: State): nat {
    (if s.starter == FirstPublish then 1 else 0) + (if s.loop == Publishing then 1 else 0)
    + (if s.closer == LastPublish then 1 else 0)
  }

  predicate Finishing(s: State) {
    s.closer == LastPublish || s.closer == Closed
  }

  predicate ClosedBeforeStart(s: State) {
    s.starter == NotStarted && s.startOnce == Complete
  }

  ghost predicate Inv(s: State) {
    && !s.panicked
    && (s.startOnce == Running <==> s.starter == FirstPublish || s.starter == Spawning || s.closer == InStartOnce)
    && (s.starter == FirstPublish || s.starter == Spawning ==> s.closer != InStartOnce && !s.done)
    && (s.starter == Started ==> s.startOnce == Complete)
    && (s.loop != NoLoop <==> s.starter == Started)
    && (s.done <==> s.loop == Gone || ClosedBeforeStart(s))
    && (s.loop == Exiting || s.loop == Gone ==> s.stop)
    && (s.stop <==> s.closer != NotClosing && s.closer != Begun)
    && (s.closer == InStartOnce ==> s.starter == NotStarted)
    && (s.closer == Awaiting || Finishing(s) ==> s.startOnce == Complete)
    && (ClosedBeforeStart(s) ==> s.closer == Awaiting || Finishing(s))
    && (Finishing(s) ==> s.done)
    && (s.closer == NotClosing <==> s.closeOnce == Fresh)
    && (s.closer == Closed <==> s.closeOnce == Complete)
    && (Finishing(s) <==> |s.documents| > 0 && !s.documents[|s.documents| - 1])
    && (forall i :: 0 <= i < |s.documents| - 1 ==> s.documents[i])
  }

  lemma StepKeepsInv(s: State, e: Event)
    requires Inv(s)
    ensures Inv(Step(s, e))
  {}

  lemma {:induction false} EveryScheduleKeepsInv(es: seq<Event>)
    ensures Inv(Exec(es))
  {
    if es != [] {
      EveryScheduleKeepsInv(es[..|es| - 1]);
      StepKeepsInv(Exec(es[..|es| - 1]), es[|es| - 1]);
    }
  }

  /** No channel is closed twice, and `failing` is never touched by two threads at once. */
  lemma NeverTwoPublishers(es: seq<Event>)
    ensures !Exec(es).panicked && InPublish(Exec(es)) <= 1
  {
    EveryScheduleKeepsInv(es);
  }

  /** Whenever a thread is about to close a channel, that channel is open. */
  lemma ClosesAreFirst(es: seq<Event>)
    ensures Exec(es).closer == Begun ==> !Exec(es).stop
    ensures Exec(es).loop == Exiting || Exec(es).closer == InStartOnce ==> !Exec(es).done
  {
    EveryScheduleKeepsInv(es);
  }

  lemma ThreeMore(es: seq<Event>, a: Event, b: Event, c: Event)
    ensures Exec(es + [a]) == Step(Exec(es), a)
    ensures Exec(es + [a, b]) == Step(Step(Exec(es), a), b)
    ensures Exec(es + [a, b, c]) == Step(Step(Step(Exec(es), a), b), c)
  {
    assert (es + [a])[..|es|] == es;
    assert (es + [a, b])[..|es| + 1] == es + [a];
    assert (es + [a, b, c])[..|es| + 2] == es + [a, b];
  }

  /** The first `Start` publishes an online document at once and leaves the loop waiting for its ticks. */
  lemma StartPublishes(es: seq<Event>)
    requires Exec(es).startOnce == Fresh
    ensures Exec(es + [StartEnter]).documents == Exec(es).documents + [true]
    ensures Exec(es + [StartEnter]).starter == FirstPublish
    ensures var t := Exec(es + [StartEnter, StartPublished, StartSpawn]);
            t.documents == Exec(es).documents + [true] && t.loop == Waiting && t.startOnce == Complete
  {
    ThreeMore(es, StartEnter, StartPublished, StartSpawn);
  }

  /** Each tick publishes one online document more, after which the loop waits again. */
  lemma TicksPublish(es: seq<Event>)
    requires Exec(es).loop == Waiting
    ensures Exec(es + [Tick]).documents == Exec(es).documents + [true] && Exec(es + [Tick]).loop == Publishing
    ensures Exec(es + [Tick, TickPublished]).loop == Waiting
  {
    ThreeMore(es, Tick, TickPublished, TickPublished);
  }

  /** Once a `Close` has returned, the offline document is the last one, and nothing is built after it. */
  lemma {:induction false} OfflineIsLast(es: seq<Event>, later: seq<Event>)
    requires Exec(es).closeOnce == Complete
    ensures var docs := Exec(es).documents;
            && |docs| > 0 && !docs[|docs| - 1] && (forall i :: 0 <= i < |docs| - 1 ==> docs[i])
            && Exec(es + later).documents == docs && Exec(es + later).closeOnce == Complete
  {
    EveryScheduleKeepsInv(es);
    if later == [] {
      assert es + later == es;
    } else {
      OfflineIsLast(es, later[..|later| - 1]);
      EveryScheduleKeepsInv(es + later[..|later| - 1]);
      assert (es + later)[..|es + later| - 1] == es + later[..|later| - 1];
    }
  }

  /** Steps still needed for a running `Close` to return, were no tick to fire. */
  function Remaining(s: State): nat {
    (match s.closer
     case NotClosing => 7 case Begun => 6 case Stopped => 5 case InStartOnce => 4 case Awaiting => 3
     case LastPublish => 1 case Closed => 0)
    + (match s.starter case NotStarted => 0 case FirstPublish => 6 case Spawning => 5 case Started => 0)
    + (match s.loop case NoLoop => 0 case Waiting => 3 case Publishing => 4 case Exiting => 2 case Gone => 0)
  }

  /** A step of some thread that brings a running `Close` nearer to its end. */
  function Unblocks(s: State): Event {
    match s.closer
    case NotClosing => CloseEnter
    case Begun => CloseStop
    case Stopped =>
      if s.startOnce == Fresh then CloseTakeStart
      else if s.startOnce == Complete then CloseSkipStart
      else if s.starter == FirstPublish then StartPublished else StartSpawn
    case InStartOnce => CloseFinishStart
    case Awaiting =>
      if s.done then CloseWait
      else if s.loop == Publishing then TickPublished
      else if s.loop == Waiting then LoopStop
      else LoopExit
    case _ => CloseReturn
  }

  lemma UnblocksProceeds(s: State)
    requires Inv(s) && s.closer != NotClosing && s.closer != Closed
    ensures Remaining(Step(s, Unblocks(s))) < Remaining(s)
    ensures Step(s, Unblocks(s)).closer != NotClosing
  {}

  /**
   `Close` never deadlocks: from every reachable state in which one is running, at most sixteen more steps of
   the threads it waits for, without any new `Start` or tick, let it return.
   */
  lemma {:induction false} CloseCanAlwaysFinish(es: seq<Event>) returns (more: seq<Event>)
    requires Exec(es).closer != NotClosing
    ensures |more| <= Remaining(Exec(es)) <= 16 && StartEnter !in more && Tick !in more
    ensures Exec(es + more).closer == Closed
    decreases Remaining(Exec(es))
  {
    EveryScheduleKeepsInv(es);
    if Exec(es).closer == Closed {
      more := [];
      assert es + more == es;
    } else {
      var e := Unblocks(Exec(es));
      assert (es + [e])[..|es + [e]| - 1] == es;
      UnblocksProceeds(Exec(es));
      var rest := CloseCanAlwaysFinish(es + [e]);
      more := [e] + rest;
      assert es + more == es + [e] + rest;
    }
  }
}
