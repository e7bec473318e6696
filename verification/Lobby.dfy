/**
 The menu program: a model updated by one message at a time, against a registry that may change
 between updates, and even between two reads within one update.
 */
module Lobby {
  import opened Common
  import opened Games
  import opened MenuView

  const DOUBLE_CLICK_WINDOW := 400
  const FLASH_DURATION := 3000

  datatype FlashText = NoFlash | Carried(text: string) | Refused(error: AccessError) | Rechecking

  datatype Outcome = Unfinished | Play(game: Game) | Quit | Idle

  /** What is on screen; `boxes` were registered by the last render. */
  datatype Screen = Screen(
    width: int, height: int, notice: Notice, blink: bool, flash: FlashText, flashUntil: int, boxes: seq<Box>)

  /** When the player last did something, and what was last clicked. */
  datatype Input = Input(last: int, clickId: string, clickAt: int)

  datatype Model = Model(
    guest: bool, fingerprint: bool, idleTimeout: int,
    games: seq<GameStatus>, cursor: int,
    aboutOpen: bool, alphaOpen: bool, alphaGame: Option<GameStatus>, alphaDontShow: bool,
    screen: Screen, input: Input,
    acks: set<string>,        // acknowledgements of alpha warnings this session has stored
    outcome: Outcome)
  {
    function SceneOf(): Scene {
      Scene(screen.width, screen.height, alphaOpen, aboutOpen, guest, screen.flash != NoFlash, fingerprint,
            screen.notice, seq(|games|, i requires 0 <= i < |games| => games[i].game.id), cursor)
    }
  }

  datatype Key = CtrlC | Space | Enter | Esc | Backspace | Up | Down | Recheck | Question | Leave | Other

  datatype Message =
    | WindowSize(width: int, height: int) | Poke | Tick | KeyPress(key: Key)
    | Click(left: bool, x: int, y: int) | Wheel(delta: int)
    | Render(boxes: seq<Box>)

  /** What an update finds outside the model: successive registry reads, the banner, the clock, the preference store. */
  datatype World = World(
    first: seq<GameStatus>, second: seq<GameStatus>, notice: Notice, now: int,
    ackReads: bool, ackWrites: bool,
    elsewhere: set<string>)   // acknowledgements the player's other sessions have stored

  // -------------------------------------------------------------------- helpers

  function WithFlash(m: Model, text: FlashText, w: World): Model {
    m.(screen := m.screen.(flash := text, flashUntil := w.now + FLASH_DURATION))
  }

  function Touched(m: Model, w: World): Model {
    m.(input := m.input.(last := w.now))
  }

  function Refreshed(m: Model, w: World): Model {
    var cursor := if m.cursor >= |w.first| then |w.first| - 1 else m.cursor;
    m.(games := w.first, cursor := if cursor < 0 then 0 else cursor, screen := m.screen.(notice := w.notice))
  }

  /** The cursor blinks, and a flash whose time is up goes away. */
  function Blinked(m: Model, w: World): Model {
    m.(screen := m.screen.(
      blink := !m.screen.blink,
      flash := if m.screen.flash != NoFlash && w.now > m.screen.flashUntil then NoFlash else m.screen.flash))
  }

  function Moved(m: Model, delta: int): Model {
    if m.games == [] then m
    else
      var c := if m.cursor + delta < 0 then 0 else m.cursor + delta;
      m.(cursor := if c >= |m.games| then |m.games| - 1 else c)
  }

  predicate Acked(m: Model, id: string, w: World) {
    w.ackReads && (id in m.acks || id in w.elsewhere)
  }

  predicate NeedsWarning(m: Model, g: GameStatus, w: World) {
    g.game.alphaWarning && !Acked(m, g.game.id, w)
  }

  /** The last check before the program ends, against a blank read of the registry. */
  function Launch(m: Model, id: string, w: World): Model {
    match Playable(w.second, id, m.guest)
    case Err(e) => WithFlash(m, Refused(e), w)
    case Ok(current) => m.(outcome := Play(current.game))
  }

  function Activate(m: Model, w: World): Model {
    if !(0 <= m.cursor < |m.games|) then m
    else
      match Playable(w.first, m.games[m.cursor].game.id, m.guest)
      case Err(e) => WithFlash(m, Refused(e), w)
      case Ok(g) =>
        if NeedsWarning(m, g, w) then m.(alphaOpen := true, alphaGame := Some(g), alphaDontShow := false)
        else Launch(m, g.game.id, w)
  }

  function ConfirmAlpha(m: Model, w: World): Model {
    if m.alphaGame.None? then m.(alphaOpen := false)
    else
      match Playable(w.first, m.alphaGame.value.game.id, m.guest)
      case Err(e) => WithFlash(m.(alphaOpen := false), Refused(e), w)
      case Ok(g) =>
        var acks := if m.alphaDontShow && w.ackWrites then m.acks + {g.game.id} else m.acks;
        Launch(m.(alphaOpen := false, acks := acks), g.game.id, w)
  }

  function HandleKey(m: Model, key: Key, w: World): Model {
    if key.CtrlC? then m.(outcome := Quit)
    else if m.alphaOpen then
      match key
      case Space => m.(alphaDontShow := !m.alphaDontShow)
      case Enter => ConfirmAlpha(m, w)
      case Esc => m.(alphaOpen := false)
      case Backspace => m.(alphaOpen := false)
      case _ => m
    else if m.aboutOpen then m.(aboutOpen := false)
    else
      match key
      case Up => Moved(m, -1)
      case Down => Moved(m, 1)
      case Enter => Activate(m, w)
      case Space => Activate(m, w)
      case Recheck => WithFlash(m, Rechecking, w)
      case Question => m.(aboutOpen := true)
      case Leave => m.(outcome := Quit)
      case _ => m
  }

  function HandleClick(m: Model, left: bool, x: int, y: int, w: World): Model {
    if !left then m
    else if m.alphaOpen then
      match TopBox(m.screen.boxes, x, y)
      case None => m
      case Some(box) =>
        if box.id == "alpha:check" then m.(alphaDontShow := !m.alphaDontShow)
        else if box.id == "alpha:continue" then ConfirmAlpha(m, w)
        else m
    else if m.aboutOpen then m.(aboutOpen := false)
    else
      match TopBox(m.screen.boxes, x, y)
      case None => m
      case Some(box) =>
        if box.data.None? || !(0 <= box.data.value < |m.games|) then m
        else
          var idx := box.data.value;
          var again := box.id == m.input.clickId && w.now - m.input.clickAt <= DOUBLE_CLICK_WINDOW;
          var clicked := m.(input := m.input.(clickId := box.id, clickAt := w.now), cursor := idx);
          if idx == m.cursor || again then Activate(clicked, w) else clicked
  }

  function Handled(m: Model, msg: Message, w: World): Model
    requires msg.KeyPress? || msg.Click?
  {
    match msg
    case KeyPress(key) => HandleKey(m, key, w)
    case Click(left, x, y) => HandleClick(m, left, x, y, w)
  }

  ghost function Update(m: Model, msg: Message, w: World): Model
    requires InRange(m)
  {
    match msg
    case WindowSize(width, height) => m.(screen := m.screen.(width := width, height := height))
    case Poke => Refreshed(m, w)
    case Tick =>
      var ticked := Refreshed(Blinked(m, w), w);
      if m.idleTimeout > 0 && w.now - m.input.last >= m.idleTimeout then ticked.(outcome := Idle) else ticked
    case KeyPress(_) => Handled(Touched(m, w), msg, w)
    case Click(_, _, _) => Handled(Touched(m, w), msg, w)
    case Wheel(delta) =>
      var touched := Touched(m, w);
      if m.alphaOpen || m.aboutOpen || (delta != 1 && delta != -1) then touched else Moved(touched, delta)
    case Render(boxes) => if BoxesOf(m.SceneOf(), boxes) then m.(screen := m.screen.(boxes := boxes)) else m
  }

  // ------------------------------------------------------------------ invariant

  ghost predicate InRange(m: Model) {
    0 <= m.cursor && (m.games == [] ==> m.cursor == 0) && (m.games != [] ==> m.cursor < |m.games|)
  }

  /** The cursor is on the list, one overlay at most is open, and the alpha overlay is about a flagged game. */
  ghost predicate Inv(m: Model) {
    && InRange(m) && !(m.alphaOpen && m.aboutOpen)
    && (m.alphaOpen ==> m.alphaGame.Some? && m.alphaGame.value.game.alphaWarning)
  }

  /** The player confirms the alpha overlay: Enter, or a click on its continue row. */
  ghost predicate Confirms(m: Model, msg: Message) {
    m.alphaOpen &&
    ( || msg == KeyPress(Enter)
      || (msg.Click? && msg.left && TopBox(m.screen.boxes, msg.x, msg.y).Some?
          && TopBox(m.screen.boxes, msg.x, msg.y).value.id == "alpha:continue"))
  }

  /** The overlay's game, confirmed just now. */
  ghost predicate IsConfirmed(m: Model, confirms: bool, id: string) {
    confirms && m.alphaGame.Some? && m.alphaGame.value.game.id == id
  }

  ghost predicate PlayOk(m: Model, g: Game, w: World, confirms: bool) {
    var first, second := Playable(w.first, g.id, m.guest), Playable(w.second, g.id, m.guest);
    && second.Ok? && second.value.game == g && first.Ok?
    && (IsConfirmed(m, confirms, g.id) || !first.value.game.alphaWarning || Acked(m, g.id, w))
  }

  ghost predicate AckOk(m: Model, t: Model, w: World, confirms: bool) {
    && confirms && m.alphaDontShow && w.ackWrites && m.alphaGame.Some?
    && Playable(w.first, m.alphaGame.value.game.id, m.guest).Ok?
    && t.acks == m.acks + {m.alphaGame.value.game.id}
  }

  /** All that one update promises, whether or not an earlier one has set an outcome. */
  ghost predicate Sound(m: Model, t: Model, w: World, confirms: bool) {
    && Inv(t) && t.guest == m.guest
    && (t.outcome.Play? && t.outcome != m.outcome ==> PlayOk(m, t.outcome.game, w, confirms))
    && (t.acks != m.acks ==> AckOk(m, t, w, confirms))
  }

  /** A launch touches nothing but the outcome and the flash. */
  lemma LaunchFacts(m: Model, id: string, w: World)
    ensures var t, current := Launch(m, id, w), Playable(w.second, id, m.guest);
            && t.(screen := m.screen, outcome := m.outcome) == m
            && t.outcome == if current.Ok? then Play(current.value.game) else m.outcome
  {}

  lemma ActivateIsSound(m: Model, w: World)
    requires Inv(m) && !m.alphaOpen && !m.aboutOpen
    ensures Sound(m, Activate(m, w), w, false)
  {
    if m.games != [] {
      LaunchFacts(m, m.games[m.cursor].game.id, w);
    }
  }

  lemma ConfirmIsSound(m: Model, w: World)
    requires Inv(m) && m.alphaOpen
    ensures Sound(m, ConfirmAlpha(m, w), w, true)
  {
    var id := m.alphaGame.value.game.id;
    var acks := if m.alphaDontShow && w.ackWrites then m.acks + {id} else m.acks;
    LaunchFacts(m.(alphaOpen := false, acks := acks), id, w);
  }

  lemma KeyIsSound(m: Model, key: Key, w: World)
    requires Inv(m)
    ensures Sound(m, HandleKey(m, key, w), w, Confirms(m, KeyPress(key)))
  {
    if !key.CtrlC? {
      if m.alphaOpen {
        ConfirmIsSound(m, w);
      } else if !m.aboutOpen {
        ActivateIsSound(m, w);
      }
    }
  }

  lemma ClickIsSound(m: Model, left: bool, x: int, y: int, w: World)
    requires Inv(m)
    ensures Sound(m, HandleClick(m, left, x, y, w), w, Confirms(m, Click(left, x, y)))
  {
    if m.alphaOpen {
      ConfirmIsSound(m, w);
    } else if !m.aboutOpen && TopBox(m.screen.boxes, x, y).Some? {
      var box := TopBox(m.screen.boxes, x, y).value;
      if box.data.Some? && 0 <= box.data.value < |m.games| {
        ActivateIsSound(m.(input := m.input.(clickId := box.id, clickAt := w.now), cursor := box.data.value), w);
      }
    }
  }

  lemma RefreshAndMoveKeepInv(m: Model, w: World, delta: int)
    requires Inv(m)
    ensures Inv(Refreshed(m, w)) && Refreshed(m, w).(games := m.games, cursor := m.cursor, screen := m.screen) == m
    ensures Inv(Moved(m, delta)) && Moved(m, delta).(cursor := m.cursor) == m
  {}

  lemma TickIsSound(m: Model, w: World)
    requires Inv(m)
    ensures Sound(m, Update(m, Tick, w), w, false)
  {
    var b := Blinked(m, w);
    assert b.(screen := m.screen) == m;
    RefreshAndMoveKeepInv(b, w, 0);
    var r := Refreshed(b, w);
    assert r.acks == m.acks && r.outcome == m.outcome && r.guest == m.guest;
  }

  /** Noting the time of an input takes nothing away from what is promised. */
  lemma TouchedIsSound(m: Model, t: Model, msg: Message, w: World)
    requires Sound(Touched(m, w), t, w, Confirms(Touched(m, w), msg))
    ensures Sound(m, t, w, Confirms(m, msg))
  {}

  lemma WheelIsSound(m: Model, delta: int, w: World)
    requires Inv(m)
    ensures Sound(m, Update(m, Wheel(delta), w), w, false)
  {
    RefreshAndMoveKeepInv(Touched(m, w), w, delta);
  }

  lemma PokeIsSound(m: Model, w: World)
    requires Inv(m)
    ensures Sound(m, Update(m, Poke, w), w, false)
  {
    RefreshAndMoveKeepInv(m, w, 0);
  }

  lemma ScreenIsSound(m: Model, msg: Message, w: World)
    requires Inv(m) && (msg.WindowSize? || msg.Render?)
    ensures Sound(m, Update(m, msg, w), w, false)
  {}

  lemma UpdateIsSound(m: Model, msg: Message, w: World)
    requires Inv(m)
    ensures Sound(m, Update(m, msg, w), w, Confirms(m, msg))
  {
    match msg
    case KeyPress(key) =>
      KeyIsSound(Touched(m, w), key, w);
      TouchedIsSound(m, Update(m, msg, w), msg, w);
    case Click(left, x, y) =>
      ClickIsSound(Touched(m, w), left, x, y, w);
      TouchedIsSound(m, Update(m, msg, w), msg, w);
    case Tick => TickIsSound(m, w);
    case Wheel(delta) => WheelIsSound(m, delta, w);
    case Poke => PokeIsSound(m, w);
    case _ => ScreenIsSound(m, msg, w);
  }

  // ------------------------------------------------------- what one update emits

  /** What activating a game emits. */
  function Launched(m: Model, id: string, w: World): Outcome {
    var first, second := Playable(w.first, id, m.guest), Playable(w.second, id, m.guest);
    if first.Ok? && !NeedsWarning(m, first.value, w) && second.Ok? then Play(second.value.game) else Unfinished
  }

  /** What confirming the warning of a game emits. */
  function Confirmed(m: Model, id: string, w: World): Outcome {
    var first, second := Playable(w.first, id, m.guest), Playable(w.second, id, m.guest);
    if first.Ok? && second.Ok? then Play(second.value.game) else Unfinished
  }

  /** The game a message activates: by key under the cursor, or by a click on the selected row or a second click. */
  function Activated(m: Model, msg: Message, w: World): Option<string>
    requires InRange(m)
  {
    if m.alphaOpen || m.aboutOpen then None
    else
      match msg
      case KeyPress(key) =>
        if (key.Enter? || key.Space?) && m.games != [] then Some(m.games[m.cursor].game.id) else None
      case Click(left, x, y) =>
        var box := TopBox(m.screen.boxes, x, y);
        if !left || box.None? || box.value.data.None? || !(0 <= box.value.data.value < |m.games|) then None
        else if box.value.data.value == m.cursor
                || (box.value.id == m.input.clickId && w.now - m.input.clickAt <= DOUBLE_CLICK_WINDOW) then
          Some(m.games[box.value.data.value].game.id)
        else None
      case _ => None
  }

  /** The outcome an update sets, whatever an earlier one has set; `Unfinished` when it sets none. */
  ghost function Emitted(m: Model, msg: Message, w: World): Outcome
    requires InRange(m)
  {
    if Activated(m, msg, w).Some? then Launched(m, Activated(m, msg, w).value, w)
    else if Confirms(m, msg) && m.alphaGame.Some? then Confirmed(m, m.alphaGame.value.game.id, w)
    else if msg == KeyPress(CtrlC) || (msg == KeyPress(Leave) && !m.alphaOpen && !m.aboutOpen) then Quit
    else if msg.Tick? && m.idleTimeout > 0 && w.now - m.input.last >= m.idleTimeout then Idle
    else Unfinished
  }

  function Latest(before: Outcome, emitted: Outcome): Outcome {
    if emitted == Unfinished then before else emitted
  }

  lemma ActivateEmits(m: Model, w: World)
    requires 0 <= m.cursor < |m.games|
    ensures Activate(m, w).outcome == Latest(m.outcome, Launched(m, m.games[m.cursor].game.id, w))
  {
    LaunchFacts(m, m.games[m.cursor].game.id, w);
  }

  lemma ConfirmEmits(m: Model, w: World)
    requires m.alphaGame.Some?
    ensures ConfirmAlpha(m, w).outcome == Latest(m.outcome, Confirmed(m, m.alphaGame.value.game.id, w))
  {
    var id := m.alphaGame.value.game.id;
    var acks := if m.alphaDontShow && w.ackWrites then m.acks + {id} else m.acks;
    LaunchFacts(m.(alphaOpen := false, acks := acks), id, w);
  }

  /** With the warning open only confirming and Ctrl-C set an outcome. */
  lemma WarnedKeyEmits(m: Model, key: Key, w: World)
    requires Inv(m) && m.alphaOpen
    ensures HandleKey(m, key, w).outcome == Latest(m.outcome, Emitted(m, KeyPress(key), w))
  {
    if key.Enter? {
      ConfirmEmits(m, w);
    }
  }

  lemma WarnedClickEmits(m: Model, left: bool, x: int, y: int, w: World)
    requires Inv(m) && m.alphaOpen
    ensures HandleClick(m, left, x, y, w).outcome == Latest(m.outcome, Emitted(m, Click(left, x, y), w))
  {
    if Confirms(m, Click(left, x, y)) {
      ConfirmEmits(m, w);
    }
  }

  lemma KeyEmits(m: Model, key: Key, w: World)
    requires Inv(m) && !m.alphaOpen
    ensures HandleKey(m, key, w).outcome == Latest(m.outcome, Emitted(m, KeyPress(key), w))
  {
    if m.games != [] {
      ActivateEmits(m, w);
    }
  }

  /** Recording the click changes nothing that a launch looks at. */
  lemma ClickedEmits(m: Model, input: Input, idx: int, w: World)
    requires 0 <= idx < |m.games|
    ensures Activate(m.(input := input, cursor := idx), w).outcome ==
            Latest(m.outcome, Launched(m, m.games[idx].game.id, w))
  {
    var clicked := m.(input := input, cursor := idx);
    ActivateEmits(clicked, w);
    assert Launched(clicked, m.games[idx].game.id, w) == Launched(m, m.games[idx].game.id, w);
  }

  lemma ClickEmits(m: Model, left: bool, x: int, y: int, w: World)
    requires Inv(m) && !m.alphaOpen
    ensures HandleClick(m, left, x, y, w).outcome == Latest(m.outcome, Emitted(m, Click(left, x, y), w))
  {
    if TopBox(m.screen.boxes, x, y).Some? {
      var box := TopBox(m.screen.boxes, x, y).value;
      if box.data.Some? && 0 <= box.data.value < |m.games| {
        ClickedEmits(m, m.input.(clickId := box.id, clickAt := w.now), box.data.value, w);
      }
    }
  }

  lemma HandledEmits(m: Model, msg: Message, w: World)
    requires Inv(m) && (msg.KeyPress? || msg.Click?)
    ensures Handled(m, msg, w).outcome == Latest(m.outcome, Emitted(m, msg, w))
  {
    match msg
    case KeyPress(key) =>
      if m.alphaOpen { WarnedKeyEmits(m, key, w); } else { KeyEmits(m, key, w); }
    case Click(left, x, y) =>
      if m.alphaOpen { WarnedClickEmits(m, left, x, y, w); } else { ClickEmits(m, left, x, y, w); }
  }

  lemma TouchedEmits(m: Model, msg: Message, w: World)
    requires Inv(m) && !msg.Tick?
    ensures Inv(Touched(m, w)) && Emitted(Touched(m, w), msg, w) == Emitted(m, msg, w)
  {}

  /**
   The outcome after any update, exactly: the one its message calls for, or the earlier one when it calls for
   none.  A play result needs an activation that both reads admit and that needs no warning, or a confirmation
   that both reads admit, and names the second read's record.
   */
  lemma OutcomeIsExact(m: Model, msg: Message, w: World)
    requires Inv(m)
    ensures Update(m, msg, w).outcome == Latest(m.outcome, Emitted(m, msg, w))
  {
    if msg.KeyPress? || msg.Click? {
      TouchedEmits(m, msg, w);
      HandledEmits(Touched(m, w), msg, w);
    }
  }

  /** A play result is the current record of a game that is playable at the very update that sets it. */
  lemma PlayIsCurrentAndPlayable(m: Model, msg: Message, w: World)
    requires Inv(m) && Emitted(m, msg, w).Play?
    ensures var g := Emitted(m, msg, w).game;
            && Update(m, msg, w).outcome == Play(g)
            && Playable(w.second, g.id, m.guest).Ok? && Playable(w.second, g.id, m.guest).value.game == g
            && Playable(w.first, g.id, m.guest).Ok?
  {
    OutcomeIsExact(m, msg, w);
  }

  /** An acknowledgement is stored only for the ticked, confirmed and still playable game of the overlay. */
  lemma AcksAreEarned(m: Model, msg: Message, w: World)
    requires Inv(m)
    ensures var acks := Update(m, msg, w).acks;
            || acks == m.acks
            || (&& Confirms(m, msg) && m.alphaDontShow && w.ackWrites && m.alphaGame.Some?
                && Playable(w.first, m.alphaGame.value.game.id, m.guest).Ok?
                && acks == m.acks + {m.alphaGame.value.game.id})
  {
    UpdateIsSound(m, msg, w);
  }

  /** What an update asks of the acknowledgement store: of a flagged game about to start, or for a ticked warning. */
  ghost function AckCalls(m: Model, msg: Message, w: World): seq<AckCall>
    requires InRange(m)
  {
    if Activated(m, msg, w).Some? then
      var first := Playable(w.first, Activated(m, msg, w).value, m.guest);
      if first.Ok? && first.value.game.alphaWarning then [HasAck(first.value.game.id)] else []
    else if Confirms(m, msg) && m.alphaGame.Some? then
      var first := Playable(w.first, m.alphaGame.value.game.id, m.guest);
      if first.Ok? && m.alphaDontShow then [PutAck(first.value.game.id)] else []
    else []
  }

  lemma ConfirmStores(m: Model, w: World)
    requires m.alphaGame.Some?
    ensures var id := m.alphaGame.value.game.id;
            ConfirmAlpha(m, w).acks ==
            if Playable(w.first, id, m.guest).Ok? && m.alphaDontShow && w.ackWrites then m.acks + {id} else m.acks
  {
    var id := m.alphaGame.value.game.id;
    LaunchFacts(m.(alphaOpen := false), id, w);
    LaunchFacts(m.(alphaOpen := false, acks := m.acks + {id}), id, w);
  }

  /** What a session has stored grows by exactly the acknowledgements its updates put, when the store takes them. */
  lemma AcksFollowCalls(m: Model, msg: Message, w: World)
    requires Inv(m)
    ensures var calls := AckCalls(m, msg, w);
            Update(m, msg, w).acks ==
            if calls != [] && calls[0].PutAck? && w.ackWrites then m.acks + {calls[0].id} else m.acks
  {
    if Confirms(m, msg) {
      ConfirmStores(Touched(m, w), w);
    } else {
      AcksAreEarned(m, msg, w);
    }
  }

  /** An update that does not ask whether a game was acknowledged starts the same game whatever the store holds. */
  lemma UnaskedStoreDecidesNothing(m: Model, msg: Message, w: World, answers: bool, stored: set<string>)
    requires Inv(m) && forall call :: call in AckCalls(m, msg, w) ==> !call.HasAck?
    ensures Emitted(m, msg, w.(ackReads := answers, elsewhere := stored)) == Emitted(m, msg, w)
  {
    var calls := AckCalls(m, msg, w);
    assert calls != [] ==> calls[0] in calls;
  }

  /** A flagged game starts, neither confirmed just now nor acknowledged before. */
  ghost predicate StartsUnwarned(m: Model, msg: Message, w: World)
    requires InRange(m)
  {
    var o := Emitted(m, msg, w);
    o.Play? && o.game.alphaWarning && !IsConfirmed(m, Confirms(m, msg), o.game.id) && !Acked(m, o.game.id, w)
  }

  /** With a registry that holds still during the update, no flagged game starts unwarned. */
  lemma FlaggedGamesAreWarned(m: Model, msg: Message, w: World)
    requires Inv(m) && w.first == w.second
    ensures !StartsUnwarned(m, msg, w)
  {}

  /**
   Without that assumption, for every message: a game starts flagged and unwarned exactly when the message
   activates it unacknowledged and both reads admit it, without its flag in the first and with it in the second.
   */
  lemma UnwarnedLaunchIsExact(m: Model, msg: Message, w: World)
    requires Inv(m)
    ensures StartsUnwarned(m, msg, w) <==>
              && Activated(m, msg, w).Some?
              && var id := Activated(m, msg, w).value;
                 && !Acked(m, id, w)
                 && Playable(w.first, id, m.guest).Ok? && !Playable(w.first, id, m.guest).value.game.alphaWarning
                 && Playable(w.second, id, m.guest).Ok? && Playable(w.second, id, m.guest).value.game.alphaWarning
  {}

  /** A menu just opened for a keyed player, with one game and nothing acknowledged. */
  function FreshMenu(only: GameStatus, notice: Notice, now: int): Model {
    Model(false, true, 0, [only], 0, false, false, None, false,
          Screen(FRAME_W, FRAME_H, notice, false, NoFlash, 0, []), Input(now, "", now), {}, Unfinished)
  }

  /** And it happens: Enter on any game whose flag appears between the two reads starts it, flagged, with no warning. */
  lemma UnwarnedLaunchHappens(g: Game, notice: Notice, now: int)
    requires !g.alphaWarning
    ensures var before, after := GameStatus(g, true, now, ""), GameStatus(g.(alphaWarning := true), true, now, "");
            var m := FreshMenu(before, notice, now);
            var w := World([before], [after], notice, now, true, true, {});
            Inv(m) && StartsUnwarned(m, KeyPress(Enter), w) && Update(m, KeyPress(Enter), w).outcome == Play(after.game)
  {
    var before, after := GameStatus(g, true, now, ""), GameStatus(g.(alphaWarning := true), true, now, "");
    assert Playable([before], g.id, false) == Ok(before);
    assert Playable([after], g.id, false) == Ok(after);
  }

  /** Enter on a selected game opens the warning exactly when one is due, stores nothing, and starts it as above. */
  lemma EnterIsExact(m: Model, w: World)
    requires Inv(m) && m.games != [] && !m.alphaOpen && !m.aboutOpen
    ensures var t, id := Update(m, KeyPress(Enter), w), m.games[m.cursor].game.id;
            var first, o := Playable(w.first, id, m.guest), Launched(m, id, w);
            && t.outcome == Latest(m.outcome, o)
            && (t.alphaOpen <==> first.Ok? && NeedsWarning(m, first.value, w))
            && (t.alphaOpen ==> t.alphaGame == Some(first.value) && !t.alphaDontShow)
            && t.acks == m.acks
  {
    LaunchFacts(Touched(m, w), m.games[m.cursor].game.id, w);
  }

  /** Enter on the warning, exactly: the overlay closes, a tick is stored while the game is playable, and it starts. */
  lemma ConfirmIsExact(m: Model, w: World)
    requires Inv(m) && m.alphaOpen
    ensures var t, id := Update(m, KeyPress(Enter), w), m.alphaGame.value.game.id;
            var first, o := Playable(w.first, id, m.guest), Confirmed(m, id, w);
            && !t.alphaOpen
            && t.outcome == Latest(m.outcome, o)
            && (o == Unfinished ==> t.screen.flash.Refused?)
            && t.acks == if first.Ok? && m.alphaDontShow && w.ackWrites then m.acks + {id} else m.acks
  {
    var id := m.alphaGame.value.game.id;
    var acks := if m.alphaDontShow && w.ackWrites then m.acks + {id} else m.acks;
    LaunchFacts(Touched(m, w).(alphaOpen := false, acks := acks), id, w);
  }

  // ------------------------------------------------------ what each message changes

  /** The cursor stays while the list reaches that far, and otherwise goes to the last row. */
  function Kept(cursor: int, games: seq<GameStatus>): int {
    if cursor < |games| then cursor else if games == [] then 0 else |games| - 1
  }

  /** What is drawn is what the menu holds: the terminal, the overlays, the player, the banner, the list, the cursor. */
  lemma SceneShowsTheModel(m: Model)
    ensures var s := m.SceneOf();
            && s.width == m.screen.width && s.height == m.screen.height
            && s.alphaOpen == m.alphaOpen && s.aboutOpen == m.aboutOpen && s.guest == m.guest
            && (s.flash <==> m.screen.flash != NoFlash) && s.fingerprint == m.fingerprint
            && s.notice == m.screen.notice && s.cursor == m.cursor && |s.ids| == |m.games|
            && forall i :: 0 <= i < |s.ids| ==> s.ids[i] == m.games[i].game.id
  {}

  /** A poke shows the registry and the banner as they are, and changes nothing else. */
  lemma PokeShowsTheRegistry(m: Model, w: World)
    requires InRange(m)
    ensures var t := Update(m, Poke, w);
            && t.games == w.first && t.screen.notice == w.notice && t.cursor == Kept(m.cursor, w.first)
            && t == m.(games := t.games, cursor := t.cursor, screen := m.screen.(notice := w.notice))
  {}

  lemma RefreshShows(m: Model, w: World)
    requires InRange(m)
    ensures var t := Refreshed(m, w);
            && t.games == w.first && t.screen == m.screen.(notice := w.notice) && t.cursor == Kept(m.cursor, w.first)
            && t.outcome == m.outcome && SamePlayer(m, t)
            && t.aboutOpen == m.aboutOpen && t.alphaOpen == m.alphaOpen && t.alphaGame == m.alphaGame
            && t.alphaDontShow == m.alphaDontShow && t.acks == m.acks
  {}

  /** So does a tick, which also blinks, ends a flash whose time is up, and gives up on a player idle for too long. */
  lemma TickShowsTheRegistry(m: Model, w: World)
    requires InRange(m)
    ensures var t := Update(m, Tick, w);
            && t.games == w.first && t.screen.notice == w.notice && t.cursor == Kept(m.cursor, w.first)
            && t.screen.blink == !m.screen.blink && t.screen.flashUntil == m.screen.flashUntil
            && (t.screen.flash == if w.now > m.screen.flashUntil then NoFlash else m.screen.flash)
            && (t.outcome == Idle <==>
                  m.outcome == Idle || (m.idleTimeout > 0 && w.now - m.input.last >= m.idleTimeout))
            && t.aboutOpen == m.aboutOpen && t.alphaOpen == m.alphaOpen && t.alphaGame == m.alphaGame
            && t.alphaDontShow == m.alphaDontShow && t.acks == m.acks && SamePlayer(m, t)
  {
    var b := Blinked(m, w);
    assert b.(screen := m.screen) == m;
    RefreshShows(b, w);
  }

  /** The keys and the wheel move the cursor by one row and stop at either end of the list; not under an overlay. */
  lemma CursorMoves(m: Model, w: World)
    requires InRange(m) && m.games != []
    ensures var up, down := if m.cursor == 0 then 0 else m.cursor - 1, Kept(m.cursor + 1, m.games);
            if m.alphaOpen || m.aboutOpen then
              && Update(m, KeyPress(Up), w).cursor == m.cursor == Update(m, KeyPress(Down), w).cursor
              && Update(m, Wheel(-1), w).cursor == m.cursor == Update(m, Wheel(1), w).cursor
            else
              && Update(m, KeyPress(Up), w).cursor == up == Update(m, Wheel(-1), w).cursor
              && Update(m, KeyPress(Down), w).cursor == down == Update(m, Wheel(1), w).cursor
  {}

  /** With the warning open, Space turns its tick, Escape and Backspace close it, and other keys leave it as it is. */
  lemma WarningFollowsKeys(m: Model, key: Key, w: World)
    requires Inv(m) && m.alphaOpen && key != Enter
    ensures var t := Update(m, KeyPress(key), w);
            && (t.alphaOpen <==> key != Esc && key != Backspace)
            && t.alphaDontShow == (if key == Space then !m.alphaDontShow else m.alphaDontShow)
            && t == m.(alphaOpen := t.alphaOpen, alphaDontShow := t.alphaDontShow, outcome := t.outcome,
                       input := t.input)
  {}

  /** The about screen opens on its key, and any key but Ctrl-C closes it and does nothing else. */
  lemma AboutFollowsKeys(m: Model, key: Key, w: World)
    requires Inv(m) && !m.alphaOpen
    ensures var t := Update(m, KeyPress(key), w);
            && (t.aboutOpen <==> if m.aboutOpen then key == CtrlC else key == Question)
            && (m.aboutOpen ==> t.(aboutOpen := true, outcome := m.outcome, input := m.input) == m)
            && (!m.aboutOpen && key == Question ==> t.(aboutOpen := false, input := m.input) == m)
  {
    if m.games != [] {
      LaunchFacts(Touched(m, w), m.games[m.cursor].game.id, w);
    }
  }

  /** A recheck says so for three seconds; a window size is taken as it is; a render's boxes replace the old ones. */
  lemma ScreenFollows(m: Model, width: int, height: int, boxes: seq<Box>, w: World)
    requires Inv(m)
    ensures Update(m, WindowSize(width, height), w) == m.(screen := m.screen.(width := width, height := height))
    ensures BoxesOf(m.SceneOf(), boxes) ==> Update(m, Render(boxes), w) == m.(screen := m.screen.(boxes := boxes))
    ensures !m.alphaOpen && !m.aboutOpen ==>
              var s := Update(m, KeyPress(Recheck), w).screen;
              && s.flash == Rechecking && s.flashUntil == w.now + 3000
              && s == m.screen.(flash := s.flash, flashUntil := s.flashUntil)
  {}

  /** Who the player is, and what the player last did. */
  ghost predicate SamePlayer(m: Model, t: Model) {
    t.guest == m.guest && t.fingerprint == m.fingerprint && t.idleTimeout == m.idleTimeout && t.input == m.input
  }

  lemma LaunchKeepsPlayer(m: Model, id: string, w: World)
    ensures SamePlayer(m, Launch(m, id, w))
  {
    LaunchFacts(m, id, w);
  }

  lemma ActivateKeepsPlayer(m: Model, w: World)
    ensures SamePlayer(m, Activate(m, w))
  {
    if 0 <= m.cursor < |m.games| {
      var id := m.games[m.cursor].game.id;
      LaunchKeepsPlayer(m, id, w);
      var found := Playable(w.first, id, m.guest);
      if found.Ok? && !NeedsWarning(m, found.value, w) {
        assert Activate(m, w) == Launch(m, id, w);
      }
    }
  }

  lemma ConfirmKeepsPlayer(m: Model, w: World)
    ensures SamePlayer(m, ConfirmAlpha(m, w))
  {
    if m.alphaGame.Some? {
      var id := m.alphaGame.value.game.id;
      var acks := if m.alphaDontShow && w.ackWrites then m.acks + {id} else m.acks;
      var closed := m.(alphaOpen := false, acks := acks);
      LaunchKeepsPlayer(closed, id, w);
      if Playable(w.first, id, m.guest).Ok? {
        assert ConfirmAlpha(m, w) == Launch(closed, id, w);
      }
    }
  }

  lemma KeyKeepsPlayer(m: Model, key: Key, w: World)
    ensures SamePlayer(m, HandleKey(m, key, w))
  {
    if m.alphaOpen {
      ConfirmKeepsPlayer(m, w);
    } else if key.Enter? || key.Space? {
      ActivateKeepsPlayer(m, w);
    }
  }

  lemma ClickKeepsPlayer(m: Model, left: bool, x: int, y: int, w: World)
    ensures var t := HandleClick(m, left, x, y, w);
            t.input.last == m.input.last && SamePlayer(m, t.(input := m.input))
  {
    ConfirmKeepsPlayer(m, w);
    if TopBox(m.screen.boxes, x, y).Some? {
      var box := TopBox(m.screen.boxes, x, y).value;
      if box.data.Some? {
        ActivateKeepsPlayer(m.(input := m.input.(clickId := box.id, clickAt := w.now), cursor := box.data.value), w);
      }
    }
  }

  lemma OthersKeepPlayer(m: Model, msg: Message, w: World)
    requires InRange(m) && (msg.Poke? || msg.Tick? || msg.WindowSize? || msg.Render?)
    ensures SamePlayer(m, Update(m, msg, w))
  {
    if msg.Tick? {
      TickShowsTheRegistry(m, w);
    } else if msg.Poke? {
      RefreshShows(m, w);
    }
  }

  /** Whatever the player does is timed, and nothing else is; who the player is never changes. */
  lemma InputIsTimed(m: Model, msg: Message, w: World)
    requires Inv(m)
    ensures var t := Update(m, msg, w);
            && (msg.KeyPress? || msg.Click? || msg.Wheel? ==> t.input.last == w.now)
            && (!msg.Click? ==> t.input.clickId == m.input.clickId && t.input.clickAt == m.input.clickAt)
            && (msg.Poke? || msg.Tick? || msg.WindowSize? || msg.Render? ==> t.input == m.input)
            && t.guest == m.guest && t.fingerprint == m.fingerprint && t.idleTimeout == m.idleTimeout
  {
    match msg
    case KeyPress(key) => KeyKeepsPlayer(Touched(m, w), key, w);
    case Click(left, x, y) => ClickKeepsPlayer(Touched(m, w), left, x, y, w);
    case Wheel(_) =>
    case _ => OthersKeepPlayer(m, msg, w);
  }

  /**
   What a message emits, exactly and in the registry's own terms.  A game starts when it is activated and its
   warning is not due, or confirmed, and both reads let the player in; the second read's record is the one.
   */
  lemma EmissionIsExact(m: Model, msg: Message, w: World, g: Game)
    requires Inv(m)
    ensures var id := if Activated(m, msg, w).Some? then Activated(m, msg, w).value
                      else if m.alphaGame.Some? then m.alphaGame.value.game.id else "";
            var first, second := Playable(w.first, id, m.guest), Playable(w.second, id, m.guest);
            Emitted(m, msg, w) == Play(g) <==>
              && (Activated(m, msg, w).Some? || Confirms(m, msg))
              && first.Ok? && second.Ok? && g == second.value.game
              && (Activated(m, msg, w).Some? ==>
                    !first.value.game.alphaWarning || (w.ackReads && (id in m.acks || id in w.elsewhere)))
    ensures Emitted(m, msg, w) == Quit <==>
              msg == KeyPress(CtrlC) || (msg == KeyPress(Leave) && !m.alphaOpen && !m.aboutOpen)
    ensures Emitted(m, msg, w) == Idle <==>
              msg.Tick? && m.idleTimeout > 0 && w.now - m.input.last >= m.idleTimeout
  {}

  /** An activated game that is refused, by either read, is not started, and the refusal shows for three seconds. */
  lemma RefusalIsShown(m: Model, w: World)
    requires Inv(m) && m.games != [] && !m.alphaOpen && !m.aboutOpen
    ensures var id := m.games[m.cursor].game.id;
            var first, second := Playable(w.first, id, m.guest), Playable(w.second, id, m.guest);
            var t := Update(m, KeyPress(Enter), w);
            && (first.Err? ==> t.screen.flash == Refused(first.error) && t.screen.flashUntil == w.now + 3000)
            && (first.Ok? && !NeedsWarning(m, first.value, w) && second.Err? ==>
                  t.screen.flash == Refused(second.error) && t.screen.flashUntil == w.now + 3000)
            && (first.Ok? && (NeedsWarning(m, first.value, w) || second.Ok?) ==> t.screen == m.screen)
  {
    var n := Touched(m, w);
    assert NeedsWarning(n, m.games[m.cursor], w) == NeedsWarning(m, m.games[m.cursor], w);
  }

  /**
   With the warning on screen, a click on the checkbox row turns the tick, one on the continue row confirms,
   and one anywhere else does nothing.
   */
  lemma WarningFollowsClicks(m: Model, x: int, y: int, w: World)
    requires Inv(m) && m.alphaOpen && m.SceneOf().FrameFits() && BoxesOf(m.SceneOf(), m.screen.boxes)
    ensures var inside, row := m.SceneOf().Left() < x < m.SceneOf().Left() + FRAME_W - 1, y - m.SceneOf().Top() - 1;
            var t := Update(m, Click(true, x, y), w);
            && (Confirms(m, Click(true, x, y)) <==> inside && row == 8)
            && (inside && row == 6 ==> t == Touched(m, w).(alphaDontShow := !m.alphaDontShow))
            && (!(inside && (row == 6 || row == 8)) ==> t == Touched(m, w))
  {
    var boxes := m.screen.boxes;
    assert |boxes| == 2 && boxes[..1] == [boxes[0]] && boxes[..1][..0] == [];
    WarningBoxes(boxes, x, y);
  }

  /** A left click closes the about screen; one that hits no box, or any other click, does nothing but be timed. */
  lemma OtherClicks(m: Model, x: int, y: int, w: World)
    requires Inv(m) && !m.alphaOpen
    ensures m.aboutOpen ==> Update(m, Click(true, x, y), w) == Touched(m, w).(aboutOpen := false)
    ensures !m.aboutOpen && TopBox(m.screen.boxes, x, y) == None ==> Update(m, Click(true, x, y), w) == Touched(m, w)
    ensures Update(m, Click(false, x, y), w) == Touched(m, w)
  {}

  lemma WarningBoxes(boxes: seq<Box>, x: int, y: int)
    requires |boxes| == 2
    ensures TopBox(boxes, x, y) == if Contains(boxes[1], x, y) then Some(boxes[1])
                                   else if Contains(boxes[0], x, y) then Some(boxes[0]) else None
  {
    var rest := boxes[..1];
    assert rest == [boxes[0]] && rest[..0] == [];
    assert TopBox(rest, x, y) == if Contains(boxes[0], x, y) then Some(boxes[0]) else None;
  }

  /**
   A click on a drawn game notes it, and activates it exactly when the cursor was on it or the same game was
   clicked no more than 400 milliseconds before.
   */
  lemma ClickActivates(m: Model, i: nat, x: int, y: int, w: World)
    requires Inv(m) && !m.alphaOpen && !m.aboutOpen && m.SceneOf().FrameFits() && BoxesOf(m.SceneOf(), m.screen.boxes)
    requires i < m.SceneOf().Shown() && m.SceneOf().Left() < x < m.SceneOf().Left() + FRAME_W - 1
    requires m.SceneOf().Top() + 1 + m.SceneOf().Row(i) <= y <= m.SceneOf().Top() + 2 + m.SceneOf().Row(i)
    ensures var idx := m.SceneOf().First() + i;
            && 0 <= idx < |m.games|
            && var id := m.games[idx].game.id;
               Activated(m, Click(true, x, y), w) ==
               if idx == m.cursor || ("game:" + id == m.input.clickId && w.now - m.input.clickAt <= 400) then Some(id)
               else None
  {
    var s := m.SceneOf();
    ClickFindsGameBox(s, m.screen.boxes, i, x, y);
    var idx := s.First() + i;
    assert |s.ids| == |m.games| && s.ids[idx] == m.games[idx].game.id;
    BoxActivates(m, TopBox(m.screen.boxes, x, y).value, idx, x, y, w);
  }

  lemma BoxActivates(m: Model, box: Box, idx: nat, x: int, y: int, w: World)
    requires Inv(m) && !m.alphaOpen && !m.aboutOpen && TopBox(m.screen.boxes, x, y) == Some(box)
    requires idx < |m.games| && box.data == Some(idx)
    ensures Activated(m, Click(true, x, y), w) ==
            if idx == m.cursor || (box.id == m.input.clickId && w.now - m.input.clickAt <= 400)
            then Some(m.games[idx].game.id) else None
  {}

  /** Boxes left over from another screen do nothing: a click on them changes only the time of the last input. */
  lemma StaleBoxesAreInert(m: Model, drawn: Scene, x: int, y: int, w: World)
    requires Inv(m) && (drawn.ids != [] ==> 0 <= drawn.cursor < |drawn.ids|) && BoxesOf(drawn, m.screen.boxes)
    requires drawn.alphaOpen != m.alphaOpen && !drawn.aboutOpen && !m.aboutOpen
    ensures Update(m, Click(true, x, y), w) == Touched(m, w)
  {
    WindowShowsCursor(drawn);
    if drawn.FrameFits() && !drawn.alphaOpen && TopBox(m.screen.boxes, x, y).Some? {
      var k :| 0 <= k < |m.screen.boxes| && m.screen.boxes[k] == TopBox(m.screen.boxes, x, y).value;
      assert m.screen.boxes[k] == GameBox(drawn, k);
      assert m.screen.boxes[k].id[0] == 'g';
    }
  }

  /** A click on a game as it is drawn puts the cursor on that game. */
  lemma ClickSelectsDrawnGame(m: Model, i: nat, x: int, y: int, w: World)
    requires Inv(m) && !m.alphaOpen && !m.aboutOpen && m.SceneOf().FrameFits() && BoxesOf(m.SceneOf(), m.screen.boxes)
    requires i < m.SceneOf().Shown() && m.SceneOf().Left() < x < m.SceneOf().Left() + FRAME_W - 1
    requires m.SceneOf().Top() + 1 + m.SceneOf().Row(i) <= y <= m.SceneOf().Top() + 2 + m.SceneOf().Row(i)
    ensures Update(m, Click(true, x, y), w).cursor == m.SceneOf().First() + i
  {
    var s := m.SceneOf();
    WindowShowsCursor(s);
    ClickHitsDrawnGame(s, m.screen.boxes, i, x, y);
    assert |s.ids| == |m.games|;
    CursorFollowsBox(Touched(m, w), x, y, w, s.First() + i);
  }

  lemma CursorFollowsBox(m: Model, x: int, y: int, w: World, idx: int)
    requires !m.alphaOpen && !m.aboutOpen && 0 <= idx < |m.games|
    requires TopBox(m.screen.boxes, x, y).Some? && TopBox(m.screen.boxes, x, y).value.data == Some(idx)
    ensures HandleClick(m, true, x, y, w).cursor == idx
  {}

  // ------------------------------------------------------------------ every run

  datatype Turn = Turn(msg: Message, world: World)

  /**
   The program from its first snapshot through its first n messages.  An outcome does not stop the messages
   already on their way.
   */
  ghost function Run(start: Model, turns: seq<Turn>, n: nat): (m: Model)
    requires Inv(start) && n <= |turns|
    ensures Inv(m) && m.guest == start.guest
  {
    if n == 0 then start
    else
      var m, t := Run(start, turns, n - 1), turns[n - 1];
      UpdateIsSound(m, t.msg, t.world);
      Update(m, t.msg, t.world)
  }

  /** The outcome that turn k sets. */
  ghost function EmittedAt(start: Model, turns: seq<Turn>, k: nat): Outcome
    requires Inv(start) && k < |turns|
  {
    Emitted(Run(start, turns, k), turns[k].msg, turns[k].world)
  }

  lemma RunOutcome(start: Model, turns: seq<Turn>, n: nat)
    requires Inv(start) && n < |turns|
    ensures Run(start, turns, n + 1).outcome == Latest(Run(start, turns, n).outcome, EmittedAt(start, turns, n))
  {
    OutcomeIsExact(Run(start, turns, n), turns[n].msg, turns[n].world);
  }

  /** An outcome that differs from the first was emitted by some turn, and none was after it. */
  lemma {:induction false} LastEmission(outcomes: seq<Outcome>, emissions: seq<Outcome>, n: nat) returns (k: nat)
    requires n <= |emissions| < |outcomes| && outcomes[n] != outcomes[0]
    requires forall k :: 0 <= k < |emissions| ==> outcomes[k + 1] == Latest(outcomes[k], emissions[k])
    ensures k < n && emissions[k] == outcomes[n]
    ensures forall j :: k < j < n ==> emissions[j] == Unfinished
  {
    k := n - 1;
    assert outcomes[k + 1] == Latest(outcomes[k], emissions[k]);
    if emissions[k] == Unfinished {
      k := LastEmission(outcomes, emissions, n - 1);
    }
  }

  /** The outcomes before, between and after the first n turns, and what each of them sets. */
  ghost function OutcomesOf(start: Model, turns: seq<Turn>, n: nat): (outcomes: seq<Outcome>)
    requires Inv(start) && n <= |turns|
    ensures |outcomes| == n + 1 && forall k :: 0 <= k <= n ==> outcomes[k] == Run(start, turns, k).outcome
  {
    seq(n + 1, k requires 0 <= k <= n => Run(start, turns, k).outcome)
  }

  ghost function EmissionsOf(start: Model, turns: seq<Turn>, n: nat): (emissions: seq<Outcome>)
    requires Inv(start) && n <= |turns|
    ensures |emissions| == n && forall k :: 0 <= k < n ==> emissions[k] == EmittedAt(start, turns, k)
  {
    seq(n, k requires 0 <= k < n => EmittedAt(start, turns, k))
  }

  lemma RunsChain(start: Model, turns: seq<Turn>, n: nat)
    requires Inv(start) && n <= |turns|
    ensures var outcomes, emissions := OutcomesOf(start, turns, n), EmissionsOf(start, turns, n);
            forall k :: 0 <= k < n ==> outcomes[k + 1] == Latest(outcomes[k], emissions[k])
  {
    var outcomes, emissions := OutcomesOf(start, turns, n), EmissionsOf(start, turns, n);
    forall k | 0 <= k < n ensures outcomes[k + 1] == Latest(outcomes[k], emissions[k]) {
      RunOutcome(start, turns, k);
    }
  }

  /** The turn that set the present outcome, with none after it setting another. */
  lemma LastSetter(start: Model, turns: seq<Turn>, n: nat) returns (k: nat)
    requires Inv(start) && n <= |turns| && Run(start, turns, n).outcome != start.outcome
    ensures k < n && EmittedAt(start, turns, k) == Run(start, turns, n).outcome
    ensures forall j :: k < j < n ==> EmittedAt(start, turns, j) == Unfinished
  {
    var outcomes, emissions := OutcomesOf(start, turns, n), EmissionsOf(start, turns, n);
    RunsChain(start, turns, n);
    assert outcomes[0] == start.outcome && outcomes[n] == Run(start, turns, n).outcome;
    k := LastEmission(outcomes, emissions, n);
    forall j | k < j < n ensures EmittedAt(start, turns, j) == Unfinished {
      assert emissions[j] == EmittedAt(start, turns, j);
    }
  }

  /**
   However the session went, a play result was playable, as recorded, in the registry read of the last turn
   that set one.
   */
  lemma EveryPlayWasPlayable(start: Model, turns: seq<Turn>, n: nat) returns (k: nat)
    requires Inv(start) && n <= |turns| && !start.outcome.Play? && Run(start, turns, n).outcome.Play?
    ensures k < n && EmittedAt(start, turns, k) == Run(start, turns, n).outcome
    ensures forall j :: k < j < n ==> EmittedAt(start, turns, j) == Unfinished
    ensures var g, w := Run(start, turns, n).outcome.game, turns[k].world;
            && Playable(w.first, g.id, start.guest).Ok?
            && Playable(w.second, g.id, start.guest).Ok? && Playable(w.second, g.id, start.guest).value.game == g
  {
    k := LastSetter(start, turns, n);
    PlayIsCurrentAndPlayable(Run(start, turns, k), turns[k].msg, turns[k].world);
  }

  /** Every acknowledgement a session adds was ticked and confirmed, in some turn, for a game playable then. */
  lemma {:induction false} EveryAckWasEarned(start: Model, turns: seq<Turn>, n: nat, id: string) returns (k: nat)
    requires Inv(start) && n <= |turns| && id in Run(start, turns, n).acks && id !in start.acks
    ensures k < n
    ensures var m, t := Run(start, turns, k), turns[k];
            && Confirms(m, t.msg) && m.alphaDontShow && m.alphaGame.Some? && m.alphaGame.value.game.id == id
            && Playable(t.world.first, id, start.guest).Ok?
  {
    k := n - 1;
    AcksAreEarned(Run(start, turns, k), turns[k].msg, turns[k].world);
    if id in Run(start, turns, k).acks {
      k := EveryAckWasEarned(start, turns, n - 1, id);
    }
  }
}
