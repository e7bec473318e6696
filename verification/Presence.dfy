/** Who is in the arcade: one seat per session, and the one-pass tally over the seats. */
module Presence {
  import opened Common

  /** Where a session is: its player's key, and the game, "" in the menu. */
  datatype Place = Place(key: string, game: string)

  datatype Counts = Counts(players: nat, sessions: nat, inLobby: nat, games: map<string, nat>)

  ghost function SeatsIn<S>(m: map<S, Place>, games: set<string>): set<S> {
    set s | s in m && m[s].game in games
  }

  /** The distinct keys with a session in one of the given places. */
  ghost function KeysIn<S>(m: map<S, Place>, games: set<string>): set<string> {
    set s | s in m && m[s].game in games :: m[s].key
  }

  ghost function AllKeys<S>(m: map<S, Place>): set<string> {
    set s | s in m :: m[s].key
  }

  ghost function GamesOf<S>(m: map<S, Place>): set<string> {
    set s | s in m && m[s].game != "" :: m[s].game
  }

  /** The tally by definition: distinct keys overall, in the menu, and in each game that has any. */
  ghost predicate IsTally<S>(m: map<S, Place>, c: Counts) {
    && c.players == |AllKeys(m)| && c.sessions == |m| && c.inLobby == |KeysIn(m, {""})|
    && c.games.Keys == GamesOf(m) && forall g :: g in c.games ==> c.games[g] == |KeysIn(m, {g})|
  }

  // ------------------------------------------------------------------ the floor

  /** Every session there has been and where it is or was, and those that have not left. */
  datatype Floor<S> = Floor(places: map<S, Place>, present: set<S>)

  function Arrived<S>(f: Floor<S>, s: S, key: string): Floor<S> {
    Floor(f.places[s := Place(key, "")], f.present + {s})
  }

  /** A move says nothing about who is counted: it may come from a session that has already left. */
  function Moved<S>(f: Floor<S>, s: S, game: string): Floor<S>
    requires s in f.places
  {
    f.(places := f.places[s := f.places[s].(game := game)])
  }

  function Departed<S>(f: Floor<S>, s: S): Floor<S> {
    f.(present := f.present - {s})
  }

  /** The places that are counted. */
  function Counted<S>(f: Floor<S>): map<S, Place> {
    map s | s in f.present && s in f.places :: f.places[s]
  }

  // ---------------------------------------------------------------- the classes

  class Tracker {
    var seats: set<Seat>
    ghost var joined: set<Seat>   // every seat there has been

    ghost predicate Valid() reads this {
      seats <= joined
    }

    ghost function View(): Floor<Seat> reads this, joined {
      Floor(map s | s in joined :: Place(s.fingerprint, s.game), seats)
    }

    /** The distinct players counted, and those of them in one place. */
    ghost function Players(): set<string> reads this, seats {
      set s | s in seats :: s.fingerprint
    }

    ghost function PlayersIn(g: string): set<string> reads this, seats {
      set s | s in seats && s.game == g :: s.fingerprint
    }

    constructor ()
      ensures Valid() && View() == Floor(map[], {})
    {
      seats, joined := {}, {};
    }

    method Join(fingerprint: string) returns (s: Seat)
      requires Valid()
      modifies this
      ensures Valid() && fresh(s) && s.tracker == this && joined == old(joined) + {s}
      ensures View() == Arrived(old(View()), s, fingerprint)
      ensures seats == old(seats) + {s} && s.fingerprint == fingerprint && s.game == ""
    {
      s := new Seat(this, fingerprint);
      seats, joined := seats + {s}, joined + {s};
    }

    lemma PlacesAreTaken()
      ensures forall g :: PlayersIn(g) != {} <==> exists s :: s in seats && s.game == g
    {
      forall g | exists s :: s in seats && s.game == g ensures PlayersIn(g) != {} {
        var s :| s in seats && s.game == g;
        assert s.fingerprint in PlayersIn(g);
      }
    }

    method Tally() returns (c: Counts)
      requires Valid()
      ensures IsTally(Counted(View()), c)
      ensures c.sessions == |seats| && c.players == |Players()| && c.inLobby == |PlayersIn("")|
      ensures forall g :: g in c.games <==> g != "" && PlayersIn(g) != {}
      ensures forall g :: g in c.games ==> c.games[g] == |PlayersIn(g)|
    {
      var players, lobby, games := Gather();
      var perGame := Sizes(games);
      c := Counts(|players|, |seats|, |lobby|, perGame);
      ghost var m := Counted(View());
      assert m.Keys == seats && players == AllKeys(m) && lobby == KeysIn(m, {""}) && games.Keys == GamesOf(m);
      forall g | g in games ensures games[g] == KeysIn(m, {g}) {}
      PlacesAreTaken();
    }

    /** One pass over the seats, collecting distinct keys overall, in the menu and per game. */
    method Gather() returns (players: set<string>, lobby: set<string>, games: map<string, set<string>>)
      ensures players == Players() && lobby == PlayersIn("")
      ensures games.Keys == set s | s in seats && s.game != "" :: s.game
      ensures forall g :: g in games ==> games[g] == PlayersIn(g)
    {
      players, lobby, games := {}, {}, map[];
      var rest := seats;
      ghost var done: set<Seat> := {};
      while rest != {}
        invariant done + rest == seats
        invariant players == set s | s in done :: s.fingerprint
        invariant lobby == set s | s in done && s.game == "" :: s.fingerprint
        invariant games.Keys == set s | s in done && s.game != "" :: s.game
        invariant forall g :: g in games ==> games[g] == set s | s in done && s.game == g :: s.fingerprint
        decreases rest
      {
        var s :| s in rest;
        rest, done := rest - {s}, done + {s};
        players := players + {s.fingerprint};
        if s.game == "" {
          lobby := lobby + {s.fingerprint};
          continue;
        }
        if s.game !in games {
          games := games[s.game := {}];
        }
        games := games[s.game := games[s.game] + {s.fingerprint}];
      }
      assert done == seats;
    }

    static method Sizes(games: map<string, set<string>>) returns (sizes: map<string, nat>)
      ensures sizes.Keys == games.Keys && forall g :: g in games ==> sizes[g] == |games[g]|
    {
      sizes := map[];
      var todo := games.Keys;
      while todo != {}
        invariant todo <= games.Keys && sizes.Keys == games.Keys - todo
        invariant forall g :: g in sizes ==> sizes[g] == |games[g]|
        decreases todo
      {
        var g :| g in todo;
        sizes := sizes[g := |games[g]|];
        todo := todo - {g};
      }
    }
  }

  class Seat {
    const tracker: Tracker
    const fingerprint: string
    var game: string

    constructor (tracker: Tracker, fingerprint: string)
      ensures this.tracker == tracker && this.fingerprint == fingerprint && game == ""
    {
      this.tracker, this.fingerprint, game := tracker, fingerprint, "";
    }

    /** Moves this session; whether it is counted at all is not touched. */
    method Enter(gameId: string)
      requires this in tracker.joined
      modifies `game
      ensures tracker.View() == Moved(old(tracker.View()), this, gameId) && game == gameId
    {
      game := gameId;
    }

    method Lobby()
      requires this in tracker.joined
      modifies `game
      ensures tracker.View() == Moved(old(tracker.View()), this, "") && game == ""
    {
      Enter("");
    }

    method Leave()
      requires tracker.Valid()
      modifies tracker`seats
      ensures tracker.Valid() && tracker.View() == Departed(old(tracker.View()), this)
      ensures tracker.seats == old(tracker.seats) - {this}
    {
      tracker.seats := tracker.seats - {this};
    }
  }

  // ----------------------------------------------------- bounds on every tally

  ghost function Pick(games: set<string>): (g: string)
    requires games != {}
    ensures g in games
  {
    var g :| g in games; g
  }

  ghost function SumOver(c: map<string, nat>, games: set<string>): nat
    requires games <= c.Keys
    decreases |games|
  {
    if games == {} then 0 else c[Pick(games)] + SumOver(c, games - {Pick(games)})
  }

  lemma {:induction false} FewerKeysThanSeats<S>(m: map<S, Place>, seats: set<S>, keys: set<string>)
    requires seats <= m.Keys && keys == set s | s in seats :: m[s].key
    ensures |keys| <= |seats|
    decreases |seats|
  {
    if seats != {} {
      var s :| s in seats;
      var fewer := set t | t in seats - {s} :: m[t].key;
      FewerKeysThanSeats(m, seats - {s}, fewer);
      assert keys == fewer + {m[s].key};
    }
  }

  lemma Split<S>(m: map<S, Place>, g: string, rest: set<string>)
    ensures KeysIn(m, {g} + rest) == KeysIn(m, {g}) + KeysIn(m, rest)
    ensures SeatsIn(m, {g} + rest) == SeatsIn(m, {g}) + SeatsIn(m, rest)
    ensures g !in rest ==> SeatsIn(m, {g}) !! SeatsIn(m, rest)
  {}

  lemma UnionSize<T>(a: set<T>, b: set<T>)
    ensures |a + b| <= |a| + |b|
    ensures a !! b ==> |a + b| == |a| + |b|
  {}

  /** Adding one more place adds at most its keys and exactly its seats. */
  lemma OnePlaceMore<S>(m: map<S, Place>, g: string, rest: set<string>)
    requires g !in rest
    ensures |KeysIn(m, {g} + rest)| <= |KeysIn(m, {g})| + |KeysIn(m, rest)|
    ensures |SeatsIn(m, {g} + rest)| == |SeatsIn(m, {g})| + |SeatsIn(m, rest)|
    ensures |KeysIn(m, {g})| <= |SeatsIn(m, {g})|
  {
    Split(m, g, rest);
    UnionSize(KeysIn(m, {g}), KeysIn(m, rest));
    UnionSize(SeatsIn(m, {g}), SeatsIn(m, rest));
    FewerKeysThanSeats(m, SeatsIn(m, {g}), KeysIn(m, {g}));
  }

  /** The per-game counts add up to at least the distinct keys and at most the sessions in those games. */
  lemma {:induction false} GamesBound<S>(m: map<S, Place>, counts: map<string, nat>, games: set<string>)
    requires games <= counts.Keys && forall g :: g in counts ==> counts[g] == |KeysIn(m, {g})|
    ensures |KeysIn(m, games)| <= SumOver(counts, games) <= |SeatsIn(m, games)|
    decreases |games|
  {
    if games == {} {
      assert KeysIn(m, games) == {};
    } else {
      var g := Pick(games);
      GamesBound(m, counts, games - {g});
      OnePlaceMore(m, g, games - {g});
      assert {g} + (games - {g}) == games;
    }
  }

  lemma Everyone<S>(m: map<S, Place>)
    ensures AllKeys(m) == KeysIn(m, {""} + GamesOf(m))
    ensures m.Keys == SeatsIn(m, {""} + GamesOf(m))
  {}

  lemma PartOfPlayers<S>(m: map<S, Place>, g: string)
    ensures |KeysIn(m, {g})| <= |AllKeys(m)|
    ensures g in GamesOf(m) ==> |KeysIn(m, {g})| > 0
  {
    SubsetSize(KeysIn(m, {g}), AllKeys(m));
    if g in GamesOf(m) {
      var s :| s in m && m[s].game == g;
      assert m[s].key in KeysIn(m, {g});
    }
  }

  /**
   Menu plus games is at least the players and at most the sessions; no part exceeds the players; no game
   shows zero.
   */
  lemma TallyBounds<S>(m: map<S, Place>, c: Counts)
    requires IsTally(m, c)
    ensures c.inLobby <= c.players
    ensures forall g :: g in c.games ==> 0 < c.games[g] <= c.players
    ensures c.players <= c.inLobby + SumOver(c.games, c.games.Keys) <= c.sessions
  {
    PartOfPlayers(m, "");
    forall g | g in c.games ensures 0 < c.games[g] <= c.players {
      PartOfPlayers(m, g);
    }
    GamesBound(m, c.games, c.games.Keys);
    Everyone(m);
    OnePlaceMore(m, "", c.games.Keys);
    assert |m| == |m.Keys|;
  }

  // ------------------------------------------------------------ every schedule

  type SeatId = nat

  datatype Event = Join(seat: SeatId, key: string) | Enter(seat: SeatId, game: string) | Leave(seat: SeatId)

  /** One step of some session; a seat joins once and moves only after that. */
  function Step(f: Floor<SeatId>, e: Event): Floor<SeatId> {
    match e
    case Join(s, key) => if s in f.places then f else Arrived(f, s, key)
    case Enter(s, g) => if s in f.places then Moved(f, s, g) else f
    case Leave(s) => if s in f.places then Departed(f, s) else f
  }

  function Exec(es: seq<Event>): Floor<SeatId> {
    if es == [] then Floor(map[], {}) else Step(Exec(es[..|es| - 1]), es[|es| - 1])
  }

  /** The game a session is in: the one it entered last, or none when it has entered none since it joined. */
  ghost function LastEntered(es: seq<Event>, s: SeatId): string {
    if es == [] then ""
    else
      match es[|es| - 1]
      case Enter(t, g) => if t == s && s in Exec(es[..|es| - 1]).places then g else LastEntered(es[..|es| - 1], s)
      case _ => LastEntered(es[..|es| - 1], s)
  }

  /** A session has joined with the key of its first join, and none other has. */
  ghost predicate JoinedWith(es: seq<Event>, s: SeatId, key: string) {
    exists i :: 0 <= i < |es| && es[i] == Join(s, key) && forall j, k :: 0 <= j < i ==> es[j] != Join(s, k)
  }

  lemma {:induction false} NobodyEarly(es: seq<Event>, s: SeatId)
    requires s !in Exec(es).places
    ensures LastEntered(es, s) == ""
  {
    if es != [] {
      NobodyEarly(es[..|es| - 1], s);
    }
  }

  /** Where a session is follows from the schedule: its own first join and its own last move. */
  lemma {:induction false} PlaceIsItsHistory(es: seq<Event>, s: SeatId)
    requires s in Exec(es).places
    ensures Exec(es).places[s].game == LastEntered(es, s) && JoinedWith(es, s, Exec(es).places[s].key)
  {
    var before, e := es[..|es| - 1], es[|es| - 1];
    if s in Exec(before).places {
      PlaceIsItsHistory(before, s);
      var i :| 0 <= i < |before| && before[i] == Join(s, Exec(before).places[s].key)
               && forall j, k :: 0 <= j < i ==> before[j] != Join(s, k);
      assert es[i] == before[i] && forall j :: 0 <= j < i ==> es[j] == before[j];
    } else {
      NobodyEarly(before, s);
      NeverJoined(before, s);
      assert es[|es| - 1] == e && forall j :: 0 <= j < |es| - 1 ==> es[j] == before[j];
    }
  }

  lemma {:induction false} NeverJoined(es: seq<Event>, s: SeatId)
    requires s !in Exec(es).places
    ensures forall j, k :: 0 <= j < |es| ==> es[j] != Join(s, k)
  {
    if es != [] {
      NeverJoined(es[..|es| - 1], s);
      assert forall j :: 0 <= j < |es| - 1 ==> es[j] == es[..|es| - 1][j];
    }
  }

  /** A session that joins is counted. */
  lemma JoiningCounts(es: seq<Event>, s: SeatId, key: string)
    requires s !in Exec(es).places
    ensures s in Exec(es + [Join(s, key)]).present && s in Exec(es + [Join(s, key)]).places
  {
    assert (es + [Join(s, key)])[..|es|] == es;
  }

  lemma {:induction false} SeatsStay(es: seq<Event>, later: seq<Event>)
    ensures Exec(es).places.Keys <= Exec(es + later).places.Keys
    ensures Exec(es).present <= Exec(es).places.Keys
  {
    if later != [] {
      SeatsStay(es, later[..|later| - 1]);
      assert (es + later)[..|es + later| - 1] == es + later[..|later| - 1];
    } else {
      assert es + later == es;
      if es != [] {
        SeatsStay(es[..|es| - 1], []);
      }
    }
  }

  /** A session that left is never counted again, whatever it does afterwards; a present one stays until it leaves. */
  lemma {:induction false} LeftForGood(es: seq<Event>, later: seq<Event>, s: SeatId)
    requires s in Exec(es).places
    ensures s in Exec(es + later).present <==> s in Exec(es).present && Leave(s) !in later
  {
    if later == [] {
      assert es + later == es;
    } else {
      LeftForGood(es, later[..|later| - 1], s);
      SeatsStay(es, later[..|later| - 1]);
      assert (es + later)[..|es + later| - 1] == es + later[..|later| - 1];
      assert later == later[..|later| - 1] + [later[|later| - 1]];
    }
  }
}
