/**
 A session from the first menu to the last: the handler's turns with the menu program running in each.  The
 registry is read by every update of the menu and once more by the handler, and may change in between.
 */
module WholeSession {
  import opened Common
  import opened Games
  import L = Lobby
  import MenuView
  import S = SessionLoop

  /**
   One turn of the handler: a run of the menu program, whether the program failed in the end, the handler's
   own registry read, and what the bridge meets.
   */
  datatype Visit = Visit(
    start: L.Model, messages: seq<L.Turn>, failed: bool, registry: seq<GameStatus>, run: S.BridgeRun, gone: bool)

  /** The menu program starts without an outcome, for this kind of player. */
  ghost predicate Opens(guest: bool, v: Visit) {
    L.Inv(v.start) && v.start.guest == guest && v.start.outcome == L.Unfinished
  }

  ghost predicate AllOpen(guest: bool, visits: seq<Visit>) {
    forall k :: 0 <= k < |visits| ==> Opens(guest, visits[k])
  }

  /** The model as the last message of a visit leaves it. */
  ghost function End(v: Visit): L.Model
    requires L.Inv(v.start)
  {
    L.Run(v.start, v.messages, |v.messages|)
  }

  /**
   One session: what it has stored is kept from each menu to the next and is nothing at first.  A guest's
   acknowledgements live in the session alone, so no other session has any.
   */
  ghost predicate Session(guest: bool, visits: seq<Visit>) {
    && AllOpen(guest, visits)
    && (forall k :: 0 <= k < |visits| ==> visits[k].start.acks == if k == 0 then {} else End(visits[k - 1]).acks)
    && (guest ==> forall k, j :: 0 <= k < |visits| && 0 <= j < |visits[k].messages| ==>
                    visits[k].messages[j].world.elsewhere == {})
  }

  /** What the first n messages ask of the acknowledgement store. */
  ghost function CallsOf(start: L.Model, messages: seq<L.Turn>, n: nat): seq<AckCall>
    requires L.Inv(start) && n <= |messages|
  {
    if n == 0 then []
    else
      CallsOf(start, messages, n - 1) +
      L.AckCalls(L.Run(start, messages, n - 1), messages[n - 1].msg, messages[n - 1].world)
  }

  /** How the handler takes the menu's result; only the ID of a chosen game is used. */
  function MenuEndOf(o: L.Outcome): S.MenuEnd {
    match o
    case Unfinished => S.Disconnected
    case Play(g) => S.Chose(g.id)
    case Quit => S.QuitMenu
    case Idle => S.IdleTimeout
  }

  /** The handler's turn; a failed program has no result, whatever it had set. */
  ghost function TurnOf(guest: bool, v: Visit): S.Turn
    requires Opens(guest, v)
  {
    S.Turn(CallsOf(v.start, v.messages, |v.messages|), if v.failed then S.Disconnected else MenuEndOf(End(v).outcome),
           v.registry, v.run, v.gone)
  }

  /** A program that did not fail ends the turn as its player ended the menu; one that failed, with no choice made. */
  lemma MenuEndsAreExact(guest: bool, v: Visit)
    requires Opens(guest, v)
    ensures var end, o := TurnOf(guest, v).menu, End(v).outcome;
            && (end == S.QuitMenu <==> !v.failed && o == L.Quit)
            && (end == S.IdleTimeout <==> !v.failed && o == L.Idle)
            && (end == S.Disconnected <==> v.failed || o == L.Unfinished)
            && (end.Chose? <==> !v.failed && o.Play?) && (end.Chose? ==> end.id == o.game.id)
  {}

  ghost function TurnsOf(guest: bool, visits: seq<Visit>): (turns: seq<S.Turn>)
    requires AllOpen(guest, visits)
    ensures |turns| == |visits| && forall k :: 0 <= k < |visits| ==> turns[k] == TurnOf(guest, visits[k])
  {
    seq(|visits|, k requires 0 <= k < |visits| => TurnOf(guest, visits[k]))
  }

  /** What the player and the store see of the whole session. */
  ghost function Story(guest: bool, hasStore: bool, visits: seq<Visit>): seq<S.Action>
    requires AllOpen(guest, visits)
  {
    S.Story(guest, hasStore, S.NoFlash, TurnsOf(guest, visits), 0)
  }

  // ----------------------------------------------------------- acknowledgements

  /** Message j asks this of the store. */
  ghost predicate CallsAt(start: L.Model, messages: seq<L.Turn>, j: nat, call: AckCall)
    requires L.Inv(start)
  {
    j < |messages| && call in L.AckCalls(L.Run(start, messages, j), messages[j].msg, messages[j].world)
  }

  lemma {:induction false} CallComesFrom(start: L.Model, messages: seq<L.Turn>, n: nat, call: AckCall)
    requires L.Inv(start) && n <= |messages|
    ensures call in CallsOf(start, messages, n) ==> exists j: nat :: j < n && CallsAt(start, messages, j, call)
  {
    if n > 0 && !CallsAt(start, messages, n - 1, call) {
      CallComesFrom(start, messages, n - 1, call);
    }
  }

  /** The message ticks and confirms the warning of this game, which the player may play at that moment. */
  ghost predicate Earned(m: L.Model, t: L.Turn, id: string) {
    && L.Confirms(m, t.msg) && m.alphaDontShow && m.alphaGame.Some? && m.alphaGame.value.game.id == id
    && Playable(t.world.first, id, m.guest).Ok?
  }

  /** Message j of this visit earns the acknowledgement of this game. */
  ghost predicate EarnedAt(v: Visit, j: nat, id: string)
    requires L.Inv(v.start)
  {
    j < |v.messages| && Earned(L.Run(v.start, v.messages, j), v.messages[j], id)
  }

  /** In every visit, an acknowledgement put among the first n messages was earned by one of them. */
  lemma PutsAreEarned(v: Visit, n: nat, id: string)
    requires L.Inv(v.start) && n <= |v.messages|
    ensures PutAck(id) in CallsOf(v.start, v.messages, n) ==> exists j: nat :: j < n && EarnedAt(v, j, id)
  {
    CallComesFrom(v.start, v.messages, n, PutAck(id));
    if j :| 0 <= j < n && CallsAt(v.start, v.messages, j, PutAck(id)) {
      assert EarnedAt(v, j, id);
    }
  }

  /** The session reaches visit k, whose menu puts this acknowledgement in message j, where it is earned. */
  ghost predicate PutAt(guest: bool, visits: seq<Visit>, k: nat, j: nat, id: string)
    requires AllOpen(guest, visits)
  {
    && k < |visits| && S.Reached(guest, TurnsOf(guest, visits), 0, k)
    && PutAck(id) in TurnOf(guest, visits[k]).calls && EarnedAt(visits[k], j, id)
  }

  /**
   Every acknowledgement that reaches the store, in any session, is put by a menu of that session in which it
   was ticked and confirmed, for a game playable then; and the player is keyed.
   */
  lemma EveryStoredAckWasEarned(guest: bool, hasStore: bool, visits: seq<Visit>, id: string)
    requires AllOpen(guest, visits)
    ensures S.AckStore(PutAck(id)) in Story(guest, hasStore, visits) ==>
              !guest && hasStore && exists k: nat, j: nat :: PutAt(guest, visits, k, j, id)
  {
    if S.AckStore(PutAck(id)) in Story(guest, hasStore, visits) {
      var k := S.StoryCallsAreAsked(guest, hasStore, S.NoFlash, TurnsOf(guest, visits), S.AckStore(PutAck(id)));
      PutsAreEarned(visits[k], |visits[k].messages|, id);
      var j :| 0 <= j < |visits[k].messages| && EarnedAt(visits[k], j, id);
      assert PutAt(guest, visits, k, j, id);
    }
  }

  /** The acknowledgement was earned in an earlier menu of the session, or earlier in menu k than message n. */
  ghost predicate EarnedBefore(visits: seq<Visit>, k: nat, n: nat, id: string)
    requires k < |visits| && forall i :: 0 <= i < |visits| ==> L.Inv(visits[i].start)
  {
    exists i: nat, j: nat :: i <= k && (i == k ==> j < n) && EarnedAt(visits[i], j, id)
  }

  /** Whatever a session finds stored by itself, it earned before. */
  lemma {:induction false} StoredWasEarned(guest: bool, visits: seq<Visit>, k: nat, n: nat, id: string)
    requires Session(guest, visits) && k < |visits| && n <= |visits[k].messages|
    ensures id in L.Run(visits[k].start, visits[k].messages, n).acks ==> EarnedBefore(visits, k, n, id)
    decreases k
  {
    var v := visits[k];
    if id in L.Run(v.start, v.messages, n).acks {
      if id !in v.start.acks {
        var j := L.EveryAckWasEarned(v.start, v.messages, n, id);
        assert EarnedAt(v, j, id);
      } else {
        assert v.start.acks == if k == 0 then {} else End(visits[k - 1]).acks;
        StoredWasEarned(guest, visits, k - 1, |visits[k - 1].messages|, id);
        var i: nat, j: nat :| i <= k - 1 && EarnedAt(visits[i], j, id);
      }
    }
  }

  // ------------------------------------------------------------ alpha warnings

  /** The handler bridges into a flagged game that this message neither confirmed nor found acknowledged. */
  ghost predicate BridgesUnwarned(m: L.Model, msg: L.Message, w: L.World, turn: S.Turn) {
    exists a :: a in S.Answered(m.guest, turn) && a.Bridge? && a.game.alphaWarning
                && !L.IsConfirmed(m, L.Confirms(m, msg), a.game.id) && !L.Acked(m, a.game.id, w)
  }

  lemma ChosenIsBridged(guest: bool, turn: S.Turn, id: string)
    requires turn.menu == S.Chose(id)
    ensures var found := Playable(turn.registry, id, guest);
            S.Answered(guest, turn) ==
            if found.Ok? then
              [S.Bridge(turn.registry, found.value.game, S.EndOf(turn.run, guest, found.value.game.allowGuests))]
            else []
  {}

  /**
   Exactly when a chosen game is bridged flagged and unwarned: the message activated it unacknowledged, the
   menu's first read shows it without its flag, and the handler's read shows it playable and with it.  What
   the menu's second read shows of the flag does not matter.
   */
  lemma UnwarnedBridgeIsExact(m: L.Model, msg: L.Message, w: L.World, turn: S.Turn)
    requires L.Inv(m) && L.Emitted(m, msg, w).Play? && turn.menu == S.Chose(L.Emitted(m, msg, w).game.id)
    ensures var id := L.Emitted(m, msg, w).game.id;
            var first, found := Playable(w.first, id, m.guest), Playable(turn.registry, id, m.guest);
            BridgesUnwarned(m, msg, w, turn) <==>
              && L.Activated(m, msg, w) == Some(id) && !L.Acked(m, id, w)
              && first.Ok? && !first.value.game.alphaWarning
              && found.Ok? && found.value.game.alphaWarning
  {
    var id := L.Emitted(m, msg, w).game.id;
    ChosenIsBridged(m.guest, turn, id);
    var found := Playable(turn.registry, id, m.guest);
    if found.Ok? {
      var bridge :=
        S.Bridge(turn.registry, found.value.game, S.EndOf(turn.run, m.guest, found.value.game.allowGuests));
      assert S.Answered(m.guest, turn) == [bridge] && bridge in [bridge];
    }
  }

  /** Message j of this visit chooses the game with this ID, and no later message sets another outcome. */
  ghost predicate ChosenAt(v: Visit, j: nat, id: string)
    requires L.Inv(v.start)
  {
    && j < |v.messages| && L.EmittedAt(v.start, v.messages, j).Play?
    && L.EmittedAt(v.start, v.messages, j).game.id == id
    && forall i :: j < i < |v.messages| ==> L.EmittedAt(v.start, v.messages, i) == L.Unfinished
  }

  lemma ChosenByMessage(guest: bool, v: Visit, id: string) returns (j: nat)
    requires Opens(guest, v) && TurnOf(guest, v).menu == S.Chose(id)
    ensures ChosenAt(v, j, id)
  {
    j := L.EveryPlayWasPlayable(v.start, v.messages, |v.messages|);
  }

  /** Why a flagged game may be bridged: it was confirmed, or acknowledged, or the menu's first read had no flag. */
  ghost predicate Explained(m: L.Model, t: L.Turn, id: string) {
    || L.IsConfirmed(m, L.Confirms(m, t.msg), id)
    || L.Acked(m, id, t.world)
    || FlagMissing(m, t, id)
  }

  /** The message activates the game and the menu's first read shows it playable and without its flag. */
  ghost predicate FlagMissing(m: L.Model, t: L.Turn, id: string) {
    && L.InRange(m) && L.Activated(m, t.msg, t.world) == Some(id)
    && Playable(t.world.first, id, m.guest).Ok? && !Playable(t.world.first, id, m.guest).value.game.alphaWarning
  }

  lemma FlaggedIsExplained(m: L.Model, t: L.Turn, turn: S.Turn, a: S.Action)
    requires L.Inv(m) && L.Emitted(m, t.msg, t.world).Play?
    requires turn.menu == S.Chose(L.Emitted(m, t.msg, t.world).game.id)
    requires a in S.Answered(m.guest, turn) && a.Bridge? && a.game.alphaWarning
    ensures Explained(m, t, a.game.id)
  {
    UnwarnedBridgeIsExact(m, t.msg, t.world, turn);
    ChosenIsBridged(m.guest, turn, a.game.id);
  }

  lemma BridgeIsAnswer(guest: bool, turn: S.Turn, a: S.Action)
    requires S.BridgeOf(guest, turn, a)
    ensures a in S.Answered(guest, turn)
  {
    ChosenIsBridged(guest, turn, a.game.id);
  }

  /** In every visit whose turn calls for a bridge into a flagged game, the message that chose it has a reason. */
  lemma VisitIsExplained(guest: bool, v: Visit, a: S.Action) returns (j: nat)
    requires Opens(guest, v) && S.BridgeOf(guest, TurnOf(guest, v), a) && a.game.alphaWarning
    ensures ChosenAt(v, j, a.game.id) && Explained(L.Run(v.start, v.messages, j), v.messages[j], a.game.id)
  {
    BridgeIsAnswer(guest, TurnOf(guest, v), a);
    j := ChosenByMessage(guest, v, a.game.id);
    FlaggedIsExplained(L.Run(v.start, v.messages, j), v.messages[j], TurnOf(guest, v), a);
  }

  /** The session reaches visit k and there bridges as `a` says. */
  ghost predicate BridgedIn(guest: bool, visits: seq<Visit>, k: nat, a: S.Action)
    requires AllOpen(guest, visits)
  {
    k < |visits| && S.Reached(guest, TurnsOf(guest, visits), 0, k) && S.BridgeOf(guest, TurnOf(guest, visits[k]), a)
  }

  /**
   Message j of visit k chose this game, and either confirmed its warning, or found it acknowledged by another
   session of a keyed player or by this session before, or activated it with no flag in the menu's first read.
   */
  ghost predicate ReasonAt(guest: bool, visits: seq<Visit>, k: nat, j: nat, id: string)
    requires AllOpen(guest, visits)
  {
    && k < |visits| && ChosenAt(visits[k], j, id)
    && var m, t := L.Run(visits[k].start, visits[k].messages, j), visits[k].messages[j];
       || L.IsConfirmed(m, L.Confirms(m, t.msg), id)
       || (t.world.ackReads && !guest && id in t.world.elsewhere)
       || (t.world.ackReads && EarnedBefore(visits, k, j, id))
       || FlagMissing(m, t, id)
  }

  lemma BridgedHasReason(guest: bool, visits: seq<Visit>, k: nat, a: S.Action)
    requires Session(guest, visits) && BridgedIn(guest, visits, k, a) && a.game.alphaWarning
    ensures exists j: nat :: ReasonAt(guest, visits, k, j, a.game.id)
  {
    var j := VisitIsExplained(guest, visits[k], a);
    StoredWasEarned(guest, visits, k, j, a.game.id);
    assert ReasonAt(guest, visits, k, j, a.game.id);
  }

  /**
   A session bridges as `a` says exactly when some visit it reaches does, and in every such visit a flagged
   game has one of those reasons in the message that chose it.
   */
  lemma EveryFlaggedBridgeIsExplained(guest: bool, hasStore: bool, visits: seq<Visit>, a: S.Action)
    requires Session(guest, visits) && a.Bridge?
    ensures a in Story(guest, hasStore, visits) <==> exists k: nat :: BridgedIn(guest, visits, k, a)
    ensures a.game.alphaWarning ==>
              forall k: nat :: BridgedIn(guest, visits, k, a) ==>
                exists j: nat :: ReasonAt(guest, visits, k, j, a.game.id)
  {
    BridgedIsTold(guest, hasStore, visits, a);
    if a.game.alphaWarning {
      forall k: nat | BridgedIn(guest, visits, k, a) ensures exists j: nat :: ReasonAt(guest, visits, k, j, a.game.id) {
        BridgedHasReason(guest, visits, k, a);
      }
    }
  }

  lemma BridgedIsTold(guest: bool, hasStore: bool, visits: seq<Visit>, a: S.Action)
    requires AllOpen(guest, visits) && a.Bridge?
    ensures a in Story(guest, hasStore, visits) <==> exists k: nat :: BridgedIn(guest, visits, k, a)
  {
    if a in Story(guest, hasStore, visits) {
      var k := S.StoryBridgesArePlayable(guest, hasStore, S.NoFlash, TurnsOf(guest, visits), a);
      assert BridgedIn(guest, visits, k, a);
    }
    if k: nat :| BridgedIn(guest, visits, k, a) {
      BridgeIsAnswer(guest, TurnOf(guest, visits[k]), a);
      var shown := S.FlashAt(guest, S.NoFlash, TurnsOf(guest, visits), 0, k);
      S.AnswerIsTold(guest, hasStore, shown, TurnOf(guest, visits[k]), a);
      S.ReachedIsTold(guest, hasStore, S.NoFlash, TurnsOf(guest, visits), k, a);
    }
  }

  /**
   Both ways the menu's result misleads.  With the flag appearing only at the handler's read the game is
   bridged unwarned though the menu's result is not flagged; with the flag at the menu's second read alone
   the result is flagged and unwarned but no flagged game is bridged.
   */
  lemma MenuAndBridgeDiffer(g: Game, notice: MenuView.Notice, now: int, run: S.BridgeRun)
    requires !g.alphaWarning
    ensures var plain, flagged :=
              GameStatus(g, true, now, ""), GameStatus(g.(alphaWarning := true), true, now, "");
            var m := L.FreshMenu(plain, notice, now);
            var still := L.World([plain], [plain], notice, now, true, true, {});
            var blink := L.World([plain], [flagged], notice, now, true, true, {});
            var later := S.Turn([], S.Chose(g.id), [flagged], run, false);
            var gone := S.Turn([], S.Chose(g.id), [plain], run, false);
            var enter := L.KeyPress(L.Enter);
            && L.Inv(m)
            && !L.StartsUnwarned(m, enter, still) && BridgesUnwarned(m, enter, still, later)
            && L.StartsUnwarned(m, enter, blink) && !BridgesUnwarned(m, enter, blink, gone)
  {
    var plain, flagged := GameStatus(g, true, now, ""), GameStatus(g.(alphaWarning := true), true, now, "");
    assert Playable([plain], g.id, false) == Ok(plain) && Playable([flagged], g.id, false) == Ok(flagged);
    var m := L.FreshMenu(plain, notice, now);
    var still := L.World([plain], [plain], notice, now, true, true, {});
    var blink := L.World([plain], [flagged], notice, now, true, true, {});
    UnwarnedBridgeIsExact(m, L.KeyPress(L.Enter), still, S.Turn([], S.Chose(g.id), [flagged], run, false));
    UnwarnedBridgeIsExact(m, L.KeyPress(L.Enter), blink, S.Turn([], S.Chose(g.id), [plain], run, false));
  }
}
