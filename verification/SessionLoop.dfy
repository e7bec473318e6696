/**
 The session handler: it alternates the menu and bridged games on one terminal.  A monitor states the
 discipline every session must keep; the handler is shown to keep it whatever its surroundings do.
 */
module SessionLoop {
  import opened Common
  import opened Games

  // ---------------------------------------------------------------- the bridge

  /** How a bridged game can end. */
  datatype BridgeEnd = Clean | ExitStatus | Unreachable | Rejected | Lost

  /** What opening the connection finds: the dial, then the handshake. */
  datatype Dial = DialFailed | HandshakeTimedOut | HandshakeRefused | Connected

  datatype Wait = WaitNil | WaitExitError | WaitOther

  /** What one bridge run meets; `granted` says whether session, stdin, PTY and shell all were. */
  datatype BridgeRun = BridgeRun(identityValid: bool, dial: Dial, granted: bool, wait: Wait)

  function EndOf(run: BridgeRun, guest: bool, allowGuests: bool): BridgeEnd {
    if !run.identityValid || (guest && !allowGuests) then Rejected
    else
      match run.dial
      case DialFailed => Unreachable
      case HandshakeTimedOut => Unreachable
      case HandshakeRefused => Rejected
      case Connected =>
        if !run.granted then Rejected
        else match run.wait case WaitNil => Clean case WaitExitError => ExitStatus case WaitOther => Lost
  }

  method RunBridge(run: BridgeRun, guest: bool, allowGuests: bool) returns (end: BridgeEnd)
    ensures end == EndOf(run, guest, allowGuests)
  {
    if !run.identityValid {
      return Rejected;
    }
    if guest && !allowGuests {
      return Rejected;
    }
    match run.dial {
      case DialFailed => return Unreachable;
      case HandshakeTimedOut => return Unreachable;
      case HandshakeRefused => return Rejected;
      case Connected =>
    }
    if !run.granted {
      return Rejected;
    }
    match run.wait {
      case WaitNil => return Clean;
      case WaitExitError => return ExitStatus;
      case WaitOther => return Lost;
    }
  }

  // ------------------------------------------------------------- what a session does

  datatype Flash = NoFlash | Denied(error: AccessError) | IsOffline(name: string) | ClosedSession(name: string)
                 | AccessRefused | ConnectionLost(name: string) | GuestEnded

  function FlashOf(end: BridgeEnd, name: string, guest: bool): Flash {
    match end
    case Clean => NoFlash
    case Unreachable => IsOffline(name)
    case ExitStatus => ClosedSession(name)
    case Rejected => AccessRefused
    case Lost => if guest then GuestEnded else ConnectionLost(name)
  }

  datatype Action =
    | TouchAccount | AckStore(call: AckCall)          // calls into the account store
    | Join | Leave                                    // the seat is taken, and freed
    | SetDest(pipe: Option<PipeId>) | ClosePipe(pipeId: PipeId)
    | Subscribe | Unsubscribe
    | Attach | Detach                                 // the resize consumer
    | RunMenu(flash: Flash)
    | Deny(error: AccessError)
    | EnterGame(id: string) | BackToLobby             // the seat moves
    | Bridge(registry: seq<GameStatus>, game: Game, end: BridgeEnd)
    | ResetTerminal
    | ReportDown(id: string)
    | Say(goodbye: bool)

  // ------------------------------------------------------------------ the monitor

  datatype SeatAt = Nowhere | Menu | InGame(id: string)

  datatype Monitor = Monitor(
    seat: SeatAt, dest: Option<PipeId>,
    open: Option<PipeId>,      // the pipe made last, until it is closed
    attached: bool, subscriptions: nat,
    dirty: bool,               // a game has run since the last reset
    owesReport: Option<string>, // the game just found unreachable and not yet reported
    flash: Flash)              // what the next menu must show

  const START := Monitor(Nowhere, None, None, false, 0, false, None, NoFlash)

  /** Between the menu and a game nothing is routed, left open, attached or subscribed. */
  predicate Idle(m: Monitor) {
    m.dest == None && m.open == None && !m.attached && m.subscriptions == 0
  }

  /** The registry declares this very record playable. */
  predicate Current(registry: seq<GameStatus>, game: Game, guest: bool) {
    var found := Playable(registry, game.id, guest);
    found.Ok? && found.value.game == game
  }

  /** The discipline: whether an action is allowed, and the state it leads to. */
  function Check(guest: bool, m: Monitor, a: Action): Option<Monitor> {
    if m.seat.InGame? && !a.Attach? && !a.Bridge? && !a.BackToLobby? then None
    else
      match a
      case TouchAccount => if guest || m.seat != Nowhere then None else Some(m)
      case AckStore(_) => if guest || m.seat != Menu then None else Some(m)
      case Join => if m.seat == Nowhere then Some(m.(seat := Menu)) else None
      case Leave =>
        if m.seat == Menu && Idle(m) && !m.dirty && m.owesReport == None then Some(m.(seat := Nowhere)) else None
      case SetDest(Some(p)) =>
        if m.dest == None && m.open == None then Some(m.(dest := Some(p), open := Some(p))) else None
      case SetDest(None) => if m.attached then None else Some(m.(dest := None))
      case ClosePipe(p) => if m.dest == Some(p) || m.open != Some(p) then None else Some(m.(open := None))
      case Subscribe => Some(m.(subscriptions := m.subscriptions + 1))
      case Unsubscribe => if m.subscriptions == 0 then None else Some(m.(subscriptions := m.subscriptions - 1))
      case Attach => if m.attached || m.dest == None then None else Some(m.(attached := true))
      case Detach => if m.attached then Some(m.(attached := false)) else None
      case RunMenu(flash) =>
        if m.seat == Menu && m.dest.Some? && m.attached && m.subscriptions > 0 && !m.dirty && m.owesReport == None
           && flash == m.flash
        then Some(m.(flash := NoFlash)) else None
      case Deny(e) => if m.seat == Menu && Idle(m) then Some(m.(flash := Denied(e))) else None
      case EnterGame(id) =>
        if m.seat == Menu && m.dest.Some? && !m.attached && m.subscriptions == 0 then Some(m.(seat := InGame(id)))
        else None
      case BackToLobby => if m.seat.InGame? then Some(m.(seat := Menu)) else None
      case Bridge(registry, game, end) =>
        if m.seat == InGame(game.id) && m.attached && !m.dirty && m.owesReport == None && Current(registry, game, guest)
        then Some(m.(dirty := true, owesReport := if end.Unreachable? then Some(game.id) else None,
                     flash := FlashOf(end, game.name, guest)))
        else None
      case ResetTerminal => if m.seat == Menu && Idle(m) then Some(m.(dirty := false)) else None
      case ReportDown(id) => if m.owesReport == Some(id) then Some(m.(owesReport := None)) else None
      case Say(_) => if m.seat == Menu && Idle(m) && !m.dirty then Some(m) else None
  }

  /** The monitor after the first n actions of a log, or None when one of them was not allowed. */
  function Watch(guest: bool, log: seq<Action>, n: nat): Option<Monitor>
    requires n <= |log|
  {
    if n == 0 then Some(START)
    else
      match Watch(guest, log, n - 1)
      case None => None
      case Some(m) => Check(guest, m, log[n - 1])
  }

  // ------------------------------------------------------------------ the handler

  datatype MenuEnd = Disconnected | Chose(id: string) | QuitMenu | IdleTimeout

  /**
   One round as the surroundings play it: what the menu asks of the store and how it ends, the registry
   then, what the bridge meets, the connection after.
   */
  datatype Turn = Turn(calls: seq<AckCall>, menu: MenuEnd, registry: seq<GameStatus>, run: BridgeRun, gone: bool)

  function Asked(calls: seq<AckCall>): (asked: seq<Action>)
    ensures |asked| == |calls| && forall i :: 0 <= i < |asked| ==> asked[i] == AckStore(calls[i])
  {
    seq(|calls|, i requires 0 <= i < |calls| => AckStore(calls[i]))
  }

  /** What the end of the menu leads to, as the player sees it. */
  function Answered(guest: bool, turn: Turn): seq<Action> {
    match turn.menu
    case QuitMenu => [Say(true)]
    case IdleTimeout => [Say(false)]
    case Disconnected => []
    case Chose(id) =>
      match Playable(turn.registry, id, guest)
      case Err(_) => []
      case Ok(current) => [Bridge(turn.registry, current.game, EndOf(turn.run, guest, current.game.allowGuests))]
  }

  /** What one turn shows the player and the account store. */
  function Told(guest: bool, hasStore: bool, flash: Flash, turn: Turn): seq<Action> {
    [RunMenu(flash)] + (if guest || !hasStore then [] else Asked(turn.calls)) + Answered(guest, turn)
  }

  /** The flash the next menu shows, or None when the turn ends the session. */
  function Next(guest: bool, turn: Turn): Option<Flash> {
    if !turn.menu.Chose? then None
    else
      match Playable(turn.registry, turn.menu.id, guest)
      case Err(e) => Some(Denied(e))
      case Ok(current) =>
        if turn.gone then None
        else Some(FlashOf(EndOf(turn.run, guest, current.game.allowGuests), current.game.name, guest))
  }

  /** A turn ends the session unless its menu chose a game and either was refused it or came back still connected. */
  predicate Over(guest: bool, turn: Turn) {
    !turn.menu.Chose? || (Playable(turn.registry, turn.menu.id, guest).Ok? && turn.gone)
  }

  /** The account is touched once, first of all, for a keyed player when there is a store. */
  function Greeting(guest: bool, hasStore: bool): seq<Action> {
    if !guest && hasStore then [TouchAccount] else []
  }

  /** What a session shows from turn i on, told from its turns alone. */
  function Story(guest: bool, hasStore: bool, flash: Flash, turns: seq<Turn>, i: nat): seq<Action>
    requires i <= |turns|
    decreases |turns| - i
  {
    if i == |turns| then []
    else
      Told(guest, hasStore, flash, turns[i]) +
      match Next(guest, turns[i])
      case None => []
      case Some(next) => Story(guest, hasStore, next, turns, i + 1)
  }

  lemma StoryGoesOn(guest: bool, hasStore: bool, flash: Flash, turns: seq<Turn>, i: nat, before: seq<Action>)
    requires i < |turns|
    ensures before + Story(guest, hasStore, flash, turns, i) ==
            before + Told(guest, hasStore, flash, turns[i]) +
            if Next(guest, turns[i]) == None then []
            else Story(guest, hasStore, Next(guest, turns[i]).value, turns, i + 1)
  {
    var told, next := Told(guest, hasStore, flash, turns[i]), Next(guest, turns[i]);
    var rest := if next == None then [] else Story(guest, hasStore, next.value, turns, i + 1);
    Regroup(before, [], told, rest);
    assert before + [] == before && [] + told == told;
  }

  function Shown(a: Action): seq<Action> {
    if a.TouchAccount? || a.RunMenu? || a.AckStore? || a.Bridge? || a.Say? then [a] else []
  }

  function Visible(log: seq<Action>, n: nat): seq<Action>
    requires n <= |log|
  {
    if n == 0 then [] else Visible(log, n - 1) + Shown(log[n - 1])
  }

  /** The log keeps the discipline, leads to `at` and shows `seen`. */
  ghost predicate Faithful(guest: bool, log: seq<Action>, at: Monitor, seen: seq<Action>) {
    forall n: nat | n == |log| :: Watch(guest, log, n) == Some(at) && Visible(log, n) == seen
  }

  lemma {:induction false} Recorded(guest: bool, log: seq<Action>, at: Monitor, seen: seq<Action>, a: Action)
    requires Faithful(guest, log, at, seen) && Check(guest, at, a).Some?
    ensures Faithful(guest, log + [a], Check(guest, at, a).value, seen + Shown(a))
  {
    var n, longer := |log|, log + [a];
    EarlierStands(guest, log, longer, n);
    EarlierShows(log, longer, n);
    assert Watch(guest, log, n) == Some(at) && longer[n] == a;
    assert Watch(guest, longer, n + 1) == Check(guest, at, a);
    assert Visible(longer, n + 1) == seen + Shown(a);
  }

  lemma {:induction false} Agree<M(!new)>(a: nat -> M, b: nat -> M, n: nat)
    requires a(0) == b(0) && forall k: nat :: k < n && a(k) == b(k) ==> a(k + 1) == b(k + 1)
    ensures a(n) == b(n)
  {
    if n > 0 {
      Agree(a, b, n - 1);
      assert a(n - 1 + 1) == b(n - 1 + 1);
    }
  }

  /** Recording another action changes nothing about the earlier ones. */
  lemma EarlierStands(guest: bool, log: seq<Action>, longer: seq<Action>, n: nat)
    requires n <= |log| && log <= longer
    ensures Watch(guest, longer, n) == Watch(guest, log, n)
  {
    var a := (k: nat) => if k <= n then Watch(guest, log, k) else None;
    var b := (k: nat) => if k <= n then Watch(guest, longer, k) else None;
    forall k: nat | k < n && a(k) == b(k) ensures a(k + 1) == b(k + 1) {
      SameStep(guest, log, longer, k);
    }
    Agree(a, b, n);
  }

  lemma SameStep(guest: bool, log: seq<Action>, other: seq<Action>, n: nat)
    requires n < |log| && n < |other| && log[n] == other[n] && Watch(guest, log, n) == Watch(guest, other, n)
    ensures Watch(guest, other, n + 1) == Watch(guest, log, n + 1)
  {
    match Watch(guest, log, n)
    case None =>
    case Some(m) => assert Watch(guest, other, n + 1) == Check(guest, m, log[n]);
  }

  lemma {:induction false} EarlierShows(log: seq<Action>, longer: seq<Action>, n: nat)
    requires n <= |log| && log <= longer
    ensures Visible(longer, n) == Visible(log, n)
  {
    if n > 0 {
      EarlierShows(log, longer, n - 1);
      assert longer[n - 1] == log[n - 1];
    }
  }

  lemma Regroup<T>(before: seq<T>, a: seq<T>, b: seq<T>, c: seq<T>)
    ensures before + a + b + c == before + (a + b + c)
  {}

  /** One session; the ghost log records what it did, `at` where the monitor stands, `seen` what was visible. */
  class Session {
    const guest: bool
    const hasStore: bool
    const hasBanner: bool
    var pipes: nat
    ghost var log: seq<Action>
    ghost var at: Monitor
    ghost var seen: seq<Action>

    ghost predicate Valid()
      reads this
    {
      Faithful(guest, log, at, seen)
    }

    constructor (guest: bool, hasStore: bool, hasBanner: bool)
      ensures Valid() && at == START && seen == []
      ensures this.guest == guest && this.hasStore == hasStore && this.hasBanner == hasBanner
    {
      this.guest, this.hasStore, this.hasBanner, pipes := guest, hasStore, hasBanner, 0;
      log, at, seen := [], START, [];
    }

    /** The state at every loop head, but for the flash to be shown. */
    ghost predicate AtHead(flash: Flash)
      reads this
    {
      Valid() && at == START.(seat := Menu, flash := flash)
    }

    ghost method Do(a: Action)
      requires Valid() && Check(guest, at, a).Some?
      modifies `log, `at, `seen
      ensures Valid() && at == Check(guest, old(at), a).value && seen == old(seen) + Shown(a)
    {
      Recorded(guest, log, at, seen, a);
      log, at, seen := log + [a], Check(guest, at, a).value, seen + Shown(a);
    }

    method OpenPipe() returns (pipe: PipeId)
      requires Valid() && at.dest == None && at.open == None && !at.seat.InGame?
      modifies this
      ensures Valid() && at == old(at).(dest := Some(pipe), open := Some(pipe)) && seen == old(seen)
    {
      pipe := pipes;
      pipes := pipes + 1;
      Do(SetDest(Some(pipe)));
    }

    method RevokePipe(pipe: PipeId)
      requires Valid() && !at.attached && !at.seat.InGame? && at.open == Some(pipe)
      modifies this
      ensures Valid() && at == old(at).(dest := None, open := None) && seen == old(seen)
    {
      Do(SetDest(None));
      Do(ClosePipe(pipe));
    }

    method SetUpMenu()
      requires Valid() && at.seat == Menu && at.dest.Some? && !at.attached && at.subscriptions == 0
      modifies this
      ensures Valid() && seen == old(seen)
      ensures at == old(at).(attached := true, subscriptions := if hasBanner then 2 else 1)
    {
      Do(Subscribe);
      if hasBanner {
        Do(Subscribe);
      }
      Do(Attach);
    }

    method TakeDownMenu()
      requires Valid() && at.seat == Menu && at.attached && at.subscriptions == if hasBanner then 2 else 1
      modifies this
      ensures Valid() && seen == old(seen)
      ensures at == old(at).(attached := false, subscriptions := 0)
    {
      Do(Detach);
      if hasBanner {
        Do(Unsubscribe);
      }
      Do(Unsubscribe);
    }

    method AskStore(calls: seq<AckCall>)
      requires Valid() && at.seat == Menu && !guest
      modifies this
      ensures Valid() && at == old(at) && seen == old(seen) + Asked(calls)
    {
      for i := 0 to |calls|
        invariant Valid() && at == old(at) && seen == old(seen) + Asked(calls)[..i]
      {
        Do(AckStore(calls[i]));
        assert Asked(calls)[..i + 1] == Asked(calls)[..i] + [AckStore(calls[i])];
      }
      assert Asked(calls)[..|calls|] == Asked(calls);
    }

    /** Sets up the menu, runs it, and takes everything down again. */
    method RunLobby(flash: Flash, calls: seq<AckCall>)
      requires AtHead(flash)
      modifies this
      ensures AtHead(NoFlash)
      ensures seen == old(seen) + [RunMenu(flash)] + if guest || !hasStore then [] else Asked(calls)
    {
      var pipe := OpenPipe();
      SetUpMenu();
      Do(RunMenu(flash));
      if !guest && hasStore {
        AskStore(calls);
      }
      TakeDownMenu();
      RevokePipe(pipe);
    }

    /** The seat enters the game and the bridge runs. */
    method Bridged(registry: seq<GameStatus>, game: Game, run: BridgeRun) returns (end: BridgeEnd)
      requires Valid() && Current(registry, game, guest)
      requires at.seat == Menu && at.dest.Some? && !at.attached && at.subscriptions == 0
      requires !at.dirty && at.owesReport == None
      modifies this
      ensures end == EndOf(run, guest, game.allowGuests)
      ensures Valid() && seen == old(seen) + [Bridge(registry, game, end)]
      ensures at == old(at).(seat := InGame(game.id), attached := true, dirty := true,
                             flash := FlashOf(end, game.name, guest),
                             owesReport := if end.Unreachable? then Some(game.id) else None)
    {
      Do(EnterGame(game.id));
      Do(Attach);
      end := RunBridge(run, guest, game.allowGuests);
      Do(Bridge(registry, game, end));
    }

    /** Bridges into a game and comes back to the menu with nothing left behind. */
    method Visit(registry: seq<GameStatus>, game: Game, run: BridgeRun) returns (end: BridgeEnd)
      requires AtHead(NoFlash) && Current(registry, game, guest)
      modifies this
      ensures end == EndOf(run, guest, game.allowGuests)
      ensures Valid() && seen == old(seen) + [Bridge(registry, game, end)]
      ensures at == START.(seat := Menu, flash := FlashOf(end, game.name, guest),
                           owesReport := if end.Unreachable? then Some(game.id) else None)
    {
      var pipe := OpenPipe();
      end := Bridged(registry, game, run);
      ComeBack(pipe);
    }

    /** The seat is back in the menu, input and resizes are disconnected and the terminal is reset. */
    method ComeBack(pipe: PipeId)
      requires Valid() && at.seat.InGame? && at.attached && at.subscriptions == 0 && at.open == Some(pipe)
      modifies this
      ensures Valid() && seen == old(seen)
      ensures at == old(at).(seat := Menu, dest := None, open := None, attached := false, dirty := false)
    {
      Do(BackToLobby);
      Do(Detach);
      RevokePipe(pipe);
      Do(ResetTerminal);
    }

    /** Reports how the visit went and words the next menu's flash. */
    method Conclude(game: Game, end: BridgeEnd) returns (flash: Flash)
      requires Valid()
      requires at == START.(seat := Menu, flash := FlashOf(end, game.name, guest),
                            owesReport := if end.Unreachable? then Some(game.id) else None)
      modifies this
      ensures AtHead(flash) && flash == FlashOf(end, game.name, guest) && seen == old(seen)
    {
      match end {
        case Clean => flash := NoFlash;
        case Unreachable =>
          Do(ReportDown(game.id));
          flash := IsOffline(game.name);
        case ExitStatus => flash := ClosedSession(game.name);
        case Rejected => flash := AccessRefused;
        case Lost => flash := if guest then GuestEnded else ConnectionLost(game.name);
      }
    }

    /** The answer to a chosen game: denied with a flash, or visited. */
    method Play(id: string, registry: seq<GameStatus>, run: BridgeRun) returns (flash: Flash, visited: bool)
      requires AtHead(NoFlash)
      modifies this
      ensures AtHead(flash) && visited == Playable(registry, id, guest).Ok?
      ensures match Playable(registry, id, guest)
              case Err(e) => flash == Denied(e) && seen == old(seen)
              case Ok(current) =>
                var end := EndOf(run, guest, current.game.allowGuests);
                && flash == FlashOf(end, current.game.name, guest)
                && seen == old(seen) + [Bridge(registry, current.game, end)]
    {
      match Playable(registry, id, guest) {
        case Err(e) =>
          Do(Deny(e));
          return Denied(e), false;
        case Ok(current) =>
          var end := Visit(registry, current.game, run);
          flash := Conclude(current.game, end);
          visited := true;
      }
    }

    /** The way out: a farewell for a deliberate end, and the seat is freed. */
    method Depart(farewell: Option<bool>)
      requires Valid() && at.seat == Menu && Idle(at) && !at.dirty && at.owesReport == None
      modifies this
      ensures Valid() && at.seat == Nowhere && Idle(at)
      ensures seen == old(seen) + if farewell.Some? then [Say(farewell.value)] else []
    {
      if farewell.Some? {
        Do(Say(farewell.value));
      }
      Do(Leave);
    }

    /** Acts on the end of the menu: the next flash, or None once the seat is freed. */
    method Answer(turn: Turn) returns (next: Option<Flash>)
      requires AtHead(NoFlash)
      modifies this
      ensures Valid() && seen == old(seen) + Answered(guest, turn) && next == Next(guest, turn)
      ensures next == None <==> Over(guest, turn)
      ensures if next.Some? then AtHead(next.value) else at.seat == Nowhere && Idle(at)
    {
      match turn.menu {
        case QuitMenu =>
          Depart(Some(true));
          return None;
        case IdleTimeout =>
          Depart(Some(false));
          return None;
        case Disconnected =>
          Depart(None);
          return None;
        case Chose(id) =>
          var flash, visited := Play(id, turn.registry, turn.run);
          if visited && turn.gone {
            Depart(None);
            return None;
          }
          return Some(flash);
      }
    }

    /** One turn of the loop. */
    method Round(flash: Flash, turn: Turn) returns (next: Option<Flash>)
      requires AtHead(flash)
      modifies this
      ensures Valid() && seen == old(seen) + Told(guest, hasStore, flash, turn) && next == Next(guest, turn)
      ensures if next.Some? then AtHead(next.value) else at.seat == Nowhere && Idle(at)
    {
      ghost var asked := if guest || !hasStore then [] else Asked(turn.calls);
      RunLobby(flash, turn.calls);
      next := Answer(turn);
      Regroup(old(seen), [RunMenu(flash)], asked, Answered(guest, turn));
    }

    /** A keyed player's account is touched, and the seat is taken. */
    method Arrive()
      requires Valid() && at == START && seen == []
      modifies this
      ensures AtHead(NoFlash) && seen == Greeting(guest, hasStore)
      ensures seen == if guest || !hasStore then [] else [TouchAccount]
    {
      if !guest && hasStore {
        Do(TouchAccount);
      }
      Do(Join);
    }

    /** The loop over the turns. */
    method Rounds(turns: seq<Turn>) returns (returned: bool)
      requires AtHead(NoFlash)
      modifies this
      ensures Valid() && seen == old(seen) + Story(guest, hasStore, NoFlash, turns, 0) && Idle(at)
      ensures returned <==> !Reached(guest, turns, 0, |turns|)
      ensures at.seat == if returned then Nowhere else Menu
    {
      var flash := NoFlash;
      ghost var whole := old(seen) + Story(guest, hasStore, NoFlash, turns, 0);
      for i := 0 to |turns|
        invariant AtHead(flash) && Reached(guest, turns, 0, i)
        invariant seen + Story(guest, hasStore, flash, turns, i) == whole
      {
        StoryGoesOn(guest, hasStore, flash, turns, i, seen);
        var next := Round(flash, turns[i]);
        if next == None {
          return true;
        }
        flash := next.value;
      }
      return false;
    }

    /**
     The handler over any prefix of a session.  Whatever the turns bring, the log keeps the discipline and
     tells the turns' story; it returns exactly when some turn ends the session; on every return the seat is
     free and nothing is left routed, open, attached or subscribed.
     */
    method Handle(turns: seq<Turn>) returns (returned: bool)
      requires Valid() && at == START && seen == []
      modifies this
      ensures Valid() && seen == Greeting(guest, hasStore) + Story(guest, hasStore, NoFlash, turns, 0) && Idle(at)
      ensures returned <==> exists k :: 0 <= k < |turns| && Over(guest, turns[k])
      ensures at.seat == if returned then Nowhere else Menu
    {
      Arrive();
      returned := Rounds(turns);
      forall k | 0 <= k < |turns| ensures Next(guest, turns[k]) == None <==> Over(guest, turns[k]) {
        NextIsExact(guest, turns[k]);
      }
    }
  }

  // ------------------------------------------------------------- laws of the story

  /** Each ending has its own flash: none for a clean end, the game's name where it matters, and a guest's loss said. */
  lemma FlashesAreExact(end: BridgeEnd, name: string, guest: bool)
    ensures var flash := FlashOf(end, name, guest);
            && (flash == NoFlash <==> end == Clean)
            && (flash == IsOffline(name) <==> end == Unreachable)
            && (flash == ClosedSession(name) <==> end == ExitStatus)
            && (flash == AccessRefused <==> end == Rejected)
            && (flash == ConnectionLost(name) <==> end == Lost && !guest)
            && (flash == GuestEnded <==> end == Lost && guest)
  {}

  /** A turn runs the menu with its flash first, then asks the store for a keyed player only, then answers. */
  lemma TurnIsTold(guest: bool, hasStore: bool, flash: Flash, turn: Turn)
    ensures var told, n := Told(guest, hasStore, flash, turn), if guest || !hasStore then 0 else |turn.calls|;
            && |told| >= 1 + n && told[0] == RunMenu(flash)
            && (forall i :: 0 <= i < n ==> told[1 + i] == AckStore(turn.calls[i]))
            && told[1 + n..] == Answered(guest, turn)
  {
    ThreeParts(RunMenu(flash), if guest || !hasStore then [] else Asked(turn.calls), Answered(guest, turn));
  }

  lemma ThreeParts<T>(x: T, a: seq<T>, b: seq<T>)
    ensures var whole := [x] + a + b;
            && whole[0] == x && (forall i :: 0 <= i < |a| ==> whole[1 + i] == a[i]) && whole[1 + |a|..] == b
  {}

  /** The answer to a menu: a farewell when it was quit or idle, the bridge when a game was chosen and may be played. */
  lemma AnswerIsExact(guest: bool, turn: Turn)
    ensures turn.menu == QuitMenu ==> Answered(guest, turn) == [Say(true)]
    ensures turn.menu == IdleTimeout ==> Answered(guest, turn) == [Say(false)]
    ensures turn.menu == Disconnected ==> Answered(guest, turn) == []
    ensures turn.menu.Chose? && Playable(turn.registry, turn.menu.id, guest).Err? ==> Answered(guest, turn) == []
    ensures turn.menu.Chose? && Playable(turn.registry, turn.menu.id, guest).Ok? ==>
              |Answered(guest, turn)| == 1 && BridgeOf(guest, turn, Answered(guest, turn)[0])
  {}

  /** The session goes on exactly after a turn that is not over, with the refusal or the visit's ending as flash. */
  lemma NextIsExact(guest: bool, turn: Turn)
    ensures Next(guest, turn) == None <==> Over(guest, turn)
    ensures Next(guest, turn).Some? ==>
              var found := Playable(turn.registry, turn.menu.id, guest);
              Next(guest, turn).value ==
              if found.Err? then Denied(found.error)
              else FlashOf(EndOf(turn.run, guest, found.value.game.allowGuests), found.value.game.name, guest)
  {}

  ghost predicate SaysLast(story: seq<Action>) {
    forall p :: 0 <= p < |story| && story[p].Say? ==> p == |story| - 1
  }

  ghost predicate SaysNothing(story: seq<Action>) {
    forall p :: 0 <= p < |story| ==> !story[p].Say?
  }

  lemma SayEndsTurn(guest: bool, hasStore: bool, flash: Flash, turn: Turn)
    ensures SaysLast(Told(guest, hasStore, flash, turn))
    ensures Next(guest, turn).Some? ==> SaysNothing(Told(guest, hasStore, flash, turn))
  {
    AnswerIsExact(guest, turn);
  }

  lemma SaysLastAfter(told: seq<Action>, rest: seq<Action>)
    requires SaysNothing(told) && SaysLast(rest)
    ensures SaysLast(told + rest)
  {}

  /** Nothing follows a farewell. */
  lemma {:induction false} FarewellIsLast(guest: bool, hasStore: bool, flash: Flash, turns: seq<Turn>, i: nat)
    requires i <= |turns|
    ensures SaysLast(Story(guest, hasStore, flash, turns, i))
    decreases |turns| - i
  {
    if i < |turns| {
      SayEndsTurn(guest, hasStore, flash, turns[i]);
      var told, next := Told(guest, hasStore, flash, turns[i]), Next(guest, turns[i]);
      if next.Some? {
        FarewellIsLast(guest, hasStore, next.value, turns, i + 1);
        SaysLastAfter(told, Story(guest, hasStore, next.value, turns, i + 1));
      } else {
        assert told + [] == told;
      }
    }
  }

  // --------------------------------------------------- what the discipline means

  /** Every prefix of a disciplined log is disciplined. */
  lemma {:induction false} WatchPrefix(guest: bool, log: seq<Action>, n: nat, i: nat)
    requires i <= n <= |log| && Watch(guest, log, n).Some?
    ensures Watch(guest, log, i).Some?
  {
    if i < n {
      WatchPrefix(guest, log, n - 1, i);
    }
  }

  /** What an action changes, allowed or not. */
  function Effect(guest: bool, m: Monitor, a: Action): Monitor {
    match a
    case Join => m.(seat := Menu)
    case Leave => m.(seat := Nowhere)
    case EnterGame(id) => m.(seat := InGame(id))
    case BackToLobby => m.(seat := Menu)
    case SetDest(pipe) => m.(dest := pipe, open := if pipe.Some? then pipe else m.open)
    case ClosePipe(_) => m.(open := None)
    case Subscribe => m.(subscriptions := m.subscriptions + 1)
    case Unsubscribe => m.(subscriptions := if m.subscriptions == 0 then 0 else m.subscriptions - 1)
    case Attach => m.(attached := true)
    case Detach => m.(attached := false)
    case RunMenu(_) => m.(flash := NoFlash)
    case Deny(e) => m.(flash := Denied(e))
    case Bridge(_, game, end) =>
      m.(dirty := true, flash := FlashOf(end, game.name, guest),
         owesReport := if end.Unreachable? then Some(game.id) else None)
    case ResetTerminal => m.(dirty := false)
    case ReportDown(_) => m.(owesReport := None)
    case _ => m
  }

  /** What the first n actions of any log amount to. */
  function Traced(guest: bool, log: seq<Action>, n: nat): Monitor
    requires n <= |log|
  {
    if n == 0 then START else Effect(guest, Traced(guest, log, n - 1), log[n - 1])
  }

  lemma AllowedIsEffect(guest: bool, m: Monitor, a: Action)
    requires Check(guest, m, a).Some?
    ensures Check(guest, m, a).value == Effect(guest, m, a)
  {}

  lemma {:induction false} MonitorFollowsLog(guest: bool, log: seq<Action>, n: nat)
    requires n <= |log| && Watch(guest, log, n).Some?
    ensures Watch(guest, log, n).value == Traced(guest, log, n)
  {
    if n > 0 {
      MonitorFollowsLog(guest, log, n - 1);
      AllowedIsEffect(guest, Watch(guest, log, n - 1).value, log[n - 1]);
    }
  }

  /** When each action may come, given what the log so far amounts to. */
  ghost predicate MayCome(m: Monitor, a: Action) {
    && (m.seat.InGame? ==> a.Attach? || a.Bridge? || a.BackToLobby?)
    && (a.RunMenu? ==>
          m.seat == Menu && m.dest.Some? && m.attached && m.subscriptions > 0 && !m.dirty && m.owesReport == None
          && a.flash == m.flash)
    && (a.Bridge? ==> m.seat == InGame(a.game.id) && m.dest.Some? && m.attached && !m.dirty)
    && (a.Leave? || a.Say? ==>
          m.seat == Menu && m.dest == None && m.open == None && !m.attached && m.subscriptions == 0 && !m.dirty)
    && (a.Leave? ==> m.owesReport == None)
    && (a.ClosePipe? ==> m.open == Some(a.pipeId) && m.dest != Some(a.pipeId))
    && (a.SetDest? && a.pipe.Some? ==> m.dest == None && m.open == None)
    && (a.Attach? ==> !m.attached && m.dest.Some?) && (a.Detach? ==> m.attached)
    && (a.TouchAccount? || a.Join? ==> m.seat == Nowhere) && (a.AckStore? ==> m.seat == Menu)
    && (a.EnterGame? ==> m.seat == Menu && !m.attached && m.subscriptions == 0) && (a.BackToLobby? ==> m.seat.InGame?)
    && (a.Deny? || a.ResetTerminal? ==> m.seat == Menu && m.open == None && !m.attached && m.subscriptions == 0)
    && (a.Unsubscribe? ==> m.subscriptions > 0) && (a.ReportDown? ==> m.owesReport == Some(a.id))
  }

  /** A seat in a game has its input routed. */
  predicate Routed(m: Monitor) {
    m.seat.InGame? ==> m.dest.Some?
  }

  lemma AllowedMayCome(guest: bool, m: Monitor, a: Action)
    requires Check(guest, m, a).Some? && Routed(m)
    ensures MayCome(m, a) && Routed(Check(guest, m, a).value)
  {}

  lemma {:induction false} EnteredIsRouted(guest: bool, log: seq<Action>, n: nat)
    requires n <= |log| && Watch(guest, log, n).Some?
    ensures Routed(Watch(guest, log, n).value)
  {
    if n > 0 {
      EnteredIsRouted(guest, log, n - 1);
      RoutedStep(guest, log, n - 1);
    }
  }

  lemma RoutedStep(guest: bool, log: seq<Action>, n: nat)
    requires n < |log| && Watch(guest, log, n).Some? && Watch(guest, log, n + 1).Some?
    requires Routed(Watch(guest, log, n).value)
    ensures Routed(Watch(guest, log, n + 1).value)
  {
    var m := Watch(guest, log, n).value;
    AllowedMayCome(guest, m, log[n]);
    assert Watch(guest, log, n + 1) == Check(guest, m, log[n]);
  }

  /**
   The discipline in a log's own terms: a seat is in a game for the bridge alone, a menu and a bridge run with
   input and resizes connected, pipes are revoked before they are closed and all are closed in the end.
   */
  lemma DisciplineMeans(guest: bool, log: seq<Action>, i: nat)
    requires Watch(guest, log, |log|).Some? && i < |log|
    ensures MayCome(Traced(guest, log, i), log[i])
  {
    WatchPrefix(guest, log, |log|, i + 1);
    MonitorFollowsLog(guest, log, i);
    EnteredIsRouted(guest, log, i);
    AllowedMayCome(guest, Watch(guest, log, i).value, log[i]);
  }

  /**
   Every bridge starts on the very record the registry declares playable, so a guest never reaches a key-only
   game.
   */
  lemma BridgesArePlayable(guest: bool, log: seq<Action>, i: nat)
    requires Watch(guest, log, |log|).Some? && i < |log| && log[i].Bridge?
    ensures Playable(log[i].registry, log[i].game.id, guest).Ok?
    ensures Playable(log[i].registry, log[i].game.id, guest).value.game == log[i].game
    ensures guest ==> log[i].game.allowGuests
    ensures Watch(guest, log, i).Some? && Watch(guest, log, i).value.seat == InGame(log[i].game.id)
  {
    WatchPrefix(guest, log, |log|, i + 1);
  }

  /** The bridge a turn calls for: to the game the player chose, on the record its registry declares playable. */
  ghost predicate BridgeOf(guest: bool, turn: Turn, a: Action) {
    && a.Bridge? && turn.menu == Chose(a.game.id)
    && a.registry == turn.registry && Current(turn.registry, a.game, guest)
    && a.end == EndOf(turn.run, guest, a.game.allowGuests)
  }

  lemma ToldBridge(guest: bool, hasStore: bool, flash: Flash, turn: Turn, a: Action)
    requires a in Told(guest, hasStore, flash, turn) && a.Bridge?
    ensures BridgeOf(guest, turn, a)
  {
    assert a in Answered(guest, turn);
  }

  lemma ToldCall(guest: bool, hasStore: bool, flash: Flash, turn: Turn, a: Action)
    requires a in Told(guest, hasStore, flash, turn) && a.AckStore?
    ensures !guest && hasStore && a.call in turn.calls
  {
    assert a !in Answered(guest, turn);
  }

  lemma StoryAt(guest: bool, hasStore: bool, flash: Flash, turns: seq<Turn>, i: nat, a: Action)
    requires i <= |turns| && a in Story(guest, hasStore, flash, turns, i)
    ensures i < |turns|
    ensures a in Told(guest, hasStore, flash, turns[i])
         || (Next(guest, turns[i]).Some? && a in Story(guest, hasStore, Next(guest, turns[i]).value, turns, i + 1))
  {}

  /** Coming from turn i, the session gets as far as turn k. */
  ghost predicate Reached(guest: bool, turns: seq<Turn>, i: nat, k: nat)
    requires k <= |turns|
  {
    forall n {:trigger Next(guest, turns[n])} :: i <= n < k ==> Next(guest, turns[n]).Some?
  }

  /** The flash with which turn k's menu runs, coming from turn i with `flash`. */
  function FlashAt(guest: bool, flash: Flash, turns: seq<Turn>, i: nat, k: nat): Flash
    requires k < |turns|
  {
    if k <= i || Next(guest, turns[k - 1]).None? then flash else Next(guest, turns[k - 1]).value
  }

  lemma FlashStep(guest: bool, flash: Flash, turns: seq<Turn>, i: nat, k: nat)
    requires i < k < |turns| && Next(guest, turns[i]).Some? && Next(guest, turns[k - 1]).Some?
    ensures FlashAt(guest, flash, turns, i, k) == FlashAt(guest, Next(guest, turns[i]).value, turns, i + 1, k)
  {}

  /** Everything in the story is told by some turn that the session reaches. */
  lemma {:induction false} StoryIsTold(guest: bool, hasStore: bool, flash: Flash, turns: seq<Turn>, i: nat, a: Action)
    returns (k: nat)
    requires i <= |turns| && a in Story(guest, hasStore, flash, turns, i)
    ensures i <= k < |turns| && Reached(guest, turns, i, k)
    ensures a in Told(guest, hasStore, FlashAt(guest, flash, turns, i, k), turns[k])
    decreases |turns| - i
  {
    StoryAt(guest, hasStore, flash, turns, i, a);
    k := i;
    if a !in Told(guest, hasStore, flash, turns[i]) {
      k := StoryIsTold(guest, hasStore, Next(guest, turns[i]).value, turns, i + 1, a);
      assert Next(guest, turns[k - 1]).Some?;
      FlashStep(guest, flash, turns, i, k);
    }
  }

  /** An action the story holds from turn i on. */
  ghost predicate Holds(guest: bool, hasStore: bool, flash: Flash, turns: seq<Turn>, i: nat, a: Action)
    requires i <= |turns|
  {
    forall story | story == Story(guest, hasStore, flash, turns, i) :: a in story
  }

  lemma StoryHolds(guest: bool, hasStore: bool, flash: Flash, turns: seq<Turn>, i: nat, a: Action)
    requires i < |turns| && a in Told(guest, hasStore, flash, turns[i])
    ensures Holds(guest, hasStore, flash, turns, i, a)
  {
    StoryGoesOn(guest, hasStore, flash, turns, i, []);
  }

  lemma StoryContinues(
    guest: bool, hasStore: bool, flash: Flash, next: Flash, turns: seq<Turn>, i: nat, a: Action)
    requires i < |turns| && Next(guest, turns[i]) == Some(next) && Holds(guest, hasStore, next, turns, i + 1, a)
    ensures Holds(guest, hasStore, flash, turns, i, a)
  {
    StoryGoesOn(guest, hasStore, flash, turns, i, []);
    assert a in Story(guest, hasStore, next, turns, i + 1);
  }

  lemma FlashFollows(guest: bool, flash: Flash, turns: seq<Turn>, i: nat, k: nat)
    requires i < k < |turns| && Next(guest, turns[k - 1]).Some?
    ensures Next(guest, turns[k - 1]) == Some(FlashAt(guest, flash, turns, i, k))
  {}

  /** The flashes with which the turns' menus run, one for each turn up to the last. */
  ghost predicate Trail(guest: bool, turns: seq<Turn>, flashes: seq<Flash>) {
    0 < |flashes| <= |turns|
    && forall n {:trigger flashes[n]} :: 0 < n < |flashes| ==> Next(guest, turns[n - 1]) == Some(flashes[n])
  }

  lemma TrailOf(guest: bool, flash: Flash, turns: seq<Turn>, k: nat) returns (flashes: seq<Flash>)
    requires k < |turns| && Reached(guest, turns, 0, k)
    ensures Trail(guest, turns, flashes) && flashes[0] == flash
    ensures |flashes| == k + 1 && flashes[k] == FlashAt(guest, flash, turns, 0, k)
  {
    flashes := seq(k + 1, n requires 0 <= n <= k => FlashAt(guest, flash, turns, 0, n));
    forall n | 0 < n <= k ensures Next(guest, turns[n - 1]) == Some(flashes[n]) {
      FlashFollows(guest, flash, turns, 0, n);
    }
  }

  /** What the story holds from a reached turn on, it holds from the start. */
  lemma {:induction false} ReachedIsHeld(
    guest: bool, hasStore: bool, flashes: seq<Flash>, turns: seq<Turn>, k: nat, a: Action)
    requires Trail(guest, turns, flashes) && k < |flashes| && Holds(guest, hasStore, flashes[k], turns, k, a)
    ensures Holds(guest, hasStore, flashes[0], turns, 0, a)
  {
    if k > 0 {
      StoryContinues(guest, hasStore, flashes[k - 1], flashes[k], turns, k - 1, a);
      ReachedIsHeld(guest, hasStore, flashes, turns, k - 1, a);
    }
  }

  /** And everything a reached turn tells is in the story: its menu with its flash, its calls, its answer. */
  lemma ReachedIsTold(guest: bool, hasStore: bool, flash: Flash, turns: seq<Turn>, k: nat, a: Action)
    requires k < |turns| && Reached(guest, turns, 0, k)
    requires a in Told(guest, hasStore, FlashAt(guest, flash, turns, 0, k), turns[k])
    ensures a in Story(guest, hasStore, flash, turns, 0)
  {
    var flashes := TrailOf(guest, flash, turns, k);
    StoryHolds(guest, hasStore, flashes[k], turns, k, a);
    ReachedIsHeld(guest, hasStore, flashes, turns, k, a);
  }

  lemma AnswerIsTold(guest: bool, hasStore: bool, flash: Flash, turn: Turn, a: Action)
    requires a in Answered(guest, turn)
    ensures a in Told(guest, hasStore, flash, turn)
  {}

  /** Every bridge in the handler's own story is the one that some reached turn calls for. */
  lemma StoryBridgesArePlayable(guest: bool, hasStore: bool, flash: Flash, turns: seq<Turn>, a: Action) returns (k: nat)
    requires a in Story(guest, hasStore, flash, turns, 0) && a.Bridge?
    ensures k < |turns| && Reached(guest, turns, 0, k) && BridgeOf(guest, turns[k], a)
  {
    k := StoryIsTold(guest, hasStore, flash, turns, 0, a);
    ToldBridge(guest, hasStore, FlashAt(guest, flash, turns, 0, k), turns[k], a);
  }

  /** Every call to the store in the story is one that some turn's menu makes, and the player is keyed. */
  lemma StoryCallsAreAsked(guest: bool, hasStore: bool, flash: Flash, turns: seq<Turn>, a: Action) returns (k: nat)
    requires a in Story(guest, hasStore, flash, turns, 0) && a.AckStore?
    ensures k < |turns| && Reached(guest, turns, 0, k) && a.call in turns[k].calls && !guest && hasStore
  {
    k := StoryIsTold(guest, hasStore, flash, turns, 0, a);
    ToldCall(guest, hasStore, FlashAt(guest, flash, turns, 0, k), turns[k], a);
  }

  /**
   For a bridge the handler starts, how it ends is down to the identity, the game's host and the game: a guest
   is never turned away for want of a key, and only the network makes a game unreachable.
   */
  lemma AdmittedEndsAreExact(registry: seq<GameStatus>, game: Game, guest: bool, run: BridgeRun)
    requires Current(registry, game, guest)
    ensures var end := EndOf(run, guest, game.allowGuests);
            && (end == Unreachable <==> run.identityValid && (run.dial.DialFailed? || run.dial.HandshakeTimedOut?))
            && (end == Rejected <==>
                  !run.identityValid || run.dial.HandshakeRefused? || (run.dial.Connected? && !run.granted))
            && (end == Lost <==> run.identityValid && run.dial.Connected? && run.granted && run.wait.WaitOther?)
            && (end == Clean <==> run.identityValid && run.dial.Connected? && run.granted && run.wait.WaitNil?)
            && (end == ExitStatus <==>
                  run.identityValid && run.dial.Connected? && run.granted && run.wait.WaitExitError?)
  {}

  /** A guest's session never calls the account store. */
  lemma GuestsNeverReachTheStore(log: seq<Action>, i: nat)
    requires Watch(true, log, |log|).Some? && i < |log|
    ensures !log[i].TouchAccount? && !log[i].AckStore?
  {
    WatchPrefix(true, log, |log|, i + 1);
  }

  /** Until the reset the terminal stays dirty and no menu runs. */
  lemma DirtyUntilReset(guest: bool, m: Monitor, a: Action)
    requires m.dirty && Check(guest, m, a).Some? && !a.ResetTerminal?
    ensures Check(guest, m, a).value.dirty && !a.RunMenu? && !a.Leave?
  {}

  lemma DirtyStep(guest: bool, log: seq<Action>, i: nat)
    requires i < |log| && Watch(guest, log, i + 1).Some?
    requires Watch(guest, log, i).Some? && Watch(guest, log, i).value.dirty && !log[i].ResetTerminal?
    ensures Watch(guest, log, i + 1).Some? && Watch(guest, log, i + 1).value.dirty
    ensures !log[i].RunMenu? && !log[i].Leave?
  {
    DirtyUntilReset(guest, Watch(guest, log, i).value, log[i]);
  }

  /** Only a bridge creates a report, only the report itself settles it, and no menu or bridge comes before that. */
  lemma OwedUntilReported(guest: bool, m: Monitor, a: Action)
    requires Check(guest, m, a).Some? && !a.Bridge?
    ensures Check(guest, m, a).value.owesReport == if a.ReportDown? then None else m.owesReport
    ensures a.ReportDown? ==> m.owesReport == Some(a.id)
    ensures m.owesReport.Some? ==> !a.RunMenu? && !a.Leave?
  {}

  /** The terminal is reset between any game and the next menu, or the end. */
  lemma {:induction false} ResetBeforeMenu(guest: bool, log: seq<Action>, i: nat, j: nat) returns (k: nat)
    requires Watch(guest, log, |log|).Some? && i < j < |log| && log[i].Bridge? && (log[j].RunMenu? || log[j].Leave?)
    ensures i < k < j && log[k].ResetTerminal?
  {
    WatchPrefix(guest, log, |log|, i + 1);
    k := FirstReset(guest, log, i + 1, j);
  }

  lemma {:induction false} FirstReset(guest: bool, log: seq<Action>, i: nat, j: nat) returns (k: nat)
    requires Watch(guest, log, |log|).Some? && i <= j < |log| && (log[j].RunMenu? || log[j].Leave?)
    requires Watch(guest, log, i).Some? && Watch(guest, log, i).value.dirty
    ensures i <= k < j && log[k].ResetTerminal?
    decreases j - i
  {
    k := i;
    if !log[i].ResetTerminal? {
      WatchPrefix(guest, log, |log|, i + 1);
      DirtyStep(guest, log, i);
      k := FirstReset(guest, log, i + 1, j);
    }
  }

  /** A game is reported down only after a bridge to it that found it unreachable, with no other bridge since. */
  lemma ReportsAreUnreachable(guest: bool, log: seq<Action>, j: nat) returns (i: nat)
    requires Watch(guest, log, |log|).Some? && j < |log| && log[j].ReportDown?
    ensures i < j && log[i].Bridge? && log[i].end == Unreachable && log[i].game.id == log[j].id
    ensures forall k :: i < k < j ==> !log[k].Bridge?
  {
    ReportIsOwed(guest, log, j);
    i := LastDebt(guest, log, j, log[j].id);
  }

  lemma ReportIsOwed(guest: bool, log: seq<Action>, j: nat)
    requires Watch(guest, log, |log|).Some? && j < |log| && log[j].ReportDown?
    ensures Watch(guest, log, j).Some? && Watch(guest, log, j).value.owesReport == Some(log[j].id)
  {
    WatchPrefix(guest, log, |log|, j + 1);
  }

  lemma {:induction false} LastDebt(guest: bool, log: seq<Action>, j: nat, id: string) returns (i: nat)
    requires j <= |log| && Watch(guest, log, j).Some? && Watch(guest, log, j).value.owesReport == Some(id)
    ensures i < j && log[i].Bridge? && log[i].end == Unreachable && log[i].game.id == id
    ensures forall k :: i < k < j ==> !log[k].Bridge?
  {
    i := j - 1;
    if !log[i].Bridge? {
      OwedUntilReported(guest, Watch(guest, log, i).value, log[i]);
      i := LastDebt(guest, log, i, id);
    }
  }

  /** An unreachable game is always reported before the next menu, or the end. */
  lemma {:induction false} UnreachableIsReported(guest: bool, log: seq<Action>, i: nat, j: nat) returns (k: nat)
    requires Watch(guest, log, |log|).Some? && i < j < |log|
    requires log[i].Bridge? && log[i].end == Unreachable && (log[j].RunMenu? || log[j].Leave?)
    ensures i < k < j && log[k] == ReportDown(log[i].game.id)
  {
    BridgeOwes(guest, log, i);
    k := FirstReport(guest, log, i + 1, j, log[i].game.id);
  }

  lemma BridgeOwes(guest: bool, log: seq<Action>, i: nat)
    requires Watch(guest, log, |log|).Some? && i < |log| && log[i].Bridge? && log[i].end == Unreachable
    ensures Owes(guest, log, i + 1, log[i].game.id)
  {
    WatchPrefix(guest, log, |log|, i + 1);
  }

  /** At the n-th action a report of this game is owed. */
  ghost predicate Owes(guest: bool, log: seq<Action>, n: nat, id: string)
    requires n <= |log|
  {
    forall m | m == Watch(guest, log, n) :: m.Some? && m.value.owesReport == Some(id)
  }

  lemma OwedStep(guest: bool, log: seq<Action>, n: nat, id: string)
    requires Watch(guest, log, |log|).Some? && n < |log| && Owes(guest, log, n, id)
    ensures !log[n].RunMenu? && !log[n].Leave?
    ensures if log[n].ReportDown? then log[n].id == id else Owes(guest, log, n + 1, id)
  {
    WatchPrefix(guest, log, |log|, n + 1);
    var m := Watch(guest, log, n).value;
    assert !log[n].Bridge?;
    OwedUntilReported(guest, m, log[n]);
    assert Watch(guest, log, n + 1) == Check(guest, m, log[n]);
  }

  lemma {:induction false} FirstReport(guest: bool, log: seq<Action>, i: nat, j: nat, id: string) returns (k: nat)
    requires Watch(guest, log, |log|).Some? && i <= j < |log| && (log[j].RunMenu? || log[j].Leave?)
    requires Owes(guest, log, i, id)
    ensures i <= k < j && log[k] == ReportDown(id)
    decreases j - i
  {
    k := i;
    OwedStep(guest, log, i, id);
    if !log[i].ReportDown? {
      k := FirstReport(guest, log, i + 1, j, id);
    }
  }
}
