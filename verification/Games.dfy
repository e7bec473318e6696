/** The registry's entities, and who may play what. */
module Games {
  import opened Common

  datatype Game = Game(
    id: string, name: string, tagline: string, addr: string, descriptors: seq<string>,
    hostKey: Option<string>, order: int, version: string, allowGuests: bool, alphaWarning: bool)

  datatype GameStatus = GameStatus(game: Game, online: bool, lastChange: int, detectedVersion: string)

  ghost predicate DistinctIds(games: seq<GameStatus>) {
    forall i, j :: 0 <= i < j < |games| ==> games[i].game.id != games[j].game.id
  }

  /** What a menu asks of the player's stored acknowledgements of alpha warnings. */
  datatype AckCall = HasAck(id: string) | PutAck(id: string)

  datatype AccessError = KeyRequired | Unavailable | Removed

  ghost predicate MayPlay(g: GameStatus, guest: bool) {
    g.online && (guest ==> g.game.allowGuests)
  }

  /** Resolves an ID against one snapshot; the first entry with that ID decides. */
  function Playable(games: seq<GameStatus>, id: string, guest: bool): (r: Result<GameStatus, AccessError>)
    ensures r.Ok? ==> r.value in games && r.value.game.id == id && MayPlay(r.value, guest)
    ensures r == Err(Removed) <==> forall g :: g in games ==> g.game.id != id
  {
    if games == [] then Err(Removed)
    else if games[0].game.id == id then
      if guest && !games[0].game.allowGuests then Err(KeyRequired)
      else if !games[0].online then Err(Unavailable)
      else Ok(games[0])
    else Playable(games[1..], id, guest)
  }

  /** With distinct IDs the answer is exactly the entry itself, or exactly why not. */
  lemma {:induction false} PlayableIsExact(games: seq<GameStatus>, g: GameStatus, guest: bool)
    requires DistinctIds(games) && g in games
    ensures Playable(games, g.game.id, guest) == Ok(g) <==> MayPlay(g, guest)
    ensures Playable(games, g.game.id, guest) == Err(KeyRequired) <==> guest && !g.game.allowGuests
    ensures Playable(games, g.game.id, guest) == Err(Unavailable) <==>
            !g.online && (guest ==> g.game.allowGuests)
  {
    if games[0].game.id != g.game.id {
      PlayableIsExact(games[1..], g, guest);
    } else {
      var i :| 0 <= i < |games| && games[i] == g;
      assert i == 0;
    }
  }
}
