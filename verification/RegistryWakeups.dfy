/**
 The registry and its subscribers together: probe cycles, reports and reloads change the health table under the
 lock and notify when they must, while menus subscribe, take tokens and read.
 */
module RegistryWakeups {
  import opened Games
  import H = Health
  import W = Wakeups

  /** What a menu can see of a snapshot: the list, and which games are online. */
  datatype Shown = Shown(games: seq<Game>, online: map<string, bool>)

  /** How the registry was booted. */
  datatype Config = Config(threshold: nat, games: seq<Game>, boot: int)

  /** The list now, every change committed so far, and the subscribers. */
  datatype State = State(games: seq<Game>, committed: seq<H.Event>, wake: W.State<Shown>)

  datatype Event = Change(w: W.Writer, change: H.Event) | Other(event: W.Event<Shown>)

  function TableOf(c: Config, committed: seq<H.Event>): H.Table {
    H.Exec(c.threshold, c.games, c.boot, committed)
  }

  function Snapshot(games: seq<Game>, t: H.Table): Shown {
    Shown(games, H.Visible(t))
  }

  function Init(c: Config): State {
    State(c.games, [], W.Init(Snapshot(c.games, TableOf(c, []))))
  }

  /** A change commits when the lock can be had; its writer owes a notify exactly when the change calls for one. */
  ghost function Step(c: Config, s: State, e: Event): State {
    match e
    case Change(w, change) =>
      if !W.CanCommit(s.wake, w) then s
      else
        var t, games := TableOf(c, s.committed), if change.Reload? then change.games else s.games;
        var shown := Snapshot(games, H.Changed(c.threshold, t, change));
        State(games, s.committed + [change],
              if H.Notifies(c.threshold, t, change) then W.Step(s.wake, W.Commit(w, shown)) else s.wake)
    case Other(event) => if event.Commit? then s else s.(wake := W.Step(s.wake, event))
  }

  ghost function Exec(c: Config, es: seq<Event>): State {
    if es == [] then Init(c) else Step(c, Exec(c, es[..|es| - 1]), es[|es| - 1])
  }

  /** The value the subscribers' protocol carries is what a snapshot taken now would show. */
  ghost predicate InStep(c: Config, s: State) {
    s.wake.value == Snapshot(s.games, TableOf(c, s.committed))
  }

  lemma CommittedSnoc(c: Config, committed: seq<H.Event>, e: H.Event)
    ensures TableOf(c, committed + [e]) == H.Changed(c.threshold, TableOf(c, committed), e)
  {
    assert (committed + [e])[..|committed|] == committed;
  }

  lemma StepKeepsInStep(c: Config, s: State, e: Event)
    requires InStep(c, s)
    ensures InStep(c, Step(c, s, e))
  {
    if e.Change? {
      CommittedSnoc(c, s.committed, e.change);
      H.ChangesThatShowNotify(c.threshold, TableOf(c, s.committed), e.change);
    }
  }

  /** The subscribers' part of every run is a schedule of the poke protocol, and stays in step with the registry. */
  lemma {:induction false} EveryRunIsASchedule(c: Config, es: seq<Event>) returns (wes: seq<W.Event<Shown>>)
    ensures InStep(c, Exec(c, es)) && Exec(c, es).wake == W.Exec(Snapshot(c.games, TableOf(c, [])), wes)
  {
    wes := [];
    if es != [] {
      var s, e := Exec(c, es[..|es| - 1]), es[|es| - 1];
      wes := EveryRunIsASchedule(c, es[..|es| - 1]);
      StepKeepsInStep(c, s, e);
      if Step(c, s, e).wake != s.wake {
        var we := if e.Other? then e.event else W.Commit(e.w, Step(c, s, e).wake.value);
        assert (wes + [we])[..|wes|] == wes;
        wes := wes + [we];
      }
    }
  }

  lemma ExecSnoc(c: Config, es: seq<Event>, e: Event)
    ensures Exec(c, es + [e]) == Step(c, Exec(c, es), e)
  {
    assert (es + [e])[..|es + [e]| - 1] == es;
  }

  /** A change that can have the lock is committed: it is the last of the history, and a reload's list is listed. */
  lemma ChangesCommit(c: Config, es: seq<Event>, w: W.Writer, change: H.Event)
    requires W.CanCommit(Exec(c, es).wake, w)
    ensures var s, t := Exec(c, es), Exec(c, es + [Change(w, change)]);
            && t.committed == s.committed + [change]
            && t.games == (if change.Reload? then change.games else s.games)
            && t.wake.board == s.wake.board
  {
    ExecSnoc(c, es, Change(w, change));
  }

  /** Nothing is on its way to the owner of this channel, and it has nothing left to read. */
  ghost predicate Quiet(s: W.State<Shown>, c: W.Chan) {
    && c in s.board.subs && s.owing == {} && s.notifying == map[]
    && c !in s.board.tokens && c !in s.due
  }

  /** A quiet menu has been shown the registry's present list and present online flags. */
  lemma QuietMenusAreCurrent(c: Config, es: seq<Event>, ch: W.Chan)
    requires Quiet(Exec(c, es).wake, ch)
    ensures var s := Exec(c, es);
            ch in s.wake.shown && s.wake.shown[ch] == Snapshot(s.games, TableOf(c, s.committed))
  {
    var wes := EveryRunIsASchedule(c, es);
    W.QuietOwnersAreUpToDate(Snapshot(c.games, TableOf(c, [])), wes, ch);
  }

  /**
   So what a quiet menu shows of a game is the game's history: it is online there exactly when a success was
   followed by no report and fewer than the threshold of failures, over all changes committed so far.
   */
  lemma QuietMenusShowTheHistory(c: Config, es: seq<Event>, ch: W.Chan, id: string)
    requires c.threshold > 0 && Quiet(Exec(c, es).wake, ch)
    ensures var s := Exec(c, es);
            var history := H.History(c.games, id, s.committed);
            && ch in s.wake.shown
            && (id in s.wake.shown[ch].online <==> history.Some?)
            && (history.Some? ==> (s.wake.shown[ch].online[id] <==> H.Up(history.value, c.threshold)))
  {
    QuietMenusAreCurrent(c, es, ch);
    H.HealthIsItsHistory(c.threshold, c.games, c.boot, Exec(c, es).committed, id);
  }

  /** The writers' and owners' remaining work, as events of the whole. */
  lemma {:induction false} RemainingWork(c: Config, es: seq<Event>, wes: seq<W.Event<Shown>>, wes': seq<W.Event<Shown>>)
    returns (es': seq<Event>)
    requires Exec(c, es).wake == W.Exec(Snapshot(c.games, TableOf(c, [])), wes) && wes <= wes'
    requires forall i :: |wes| <= i < |wes'| ==> W.Finishes(wes'[i])
    ensures es <= es' && forall i :: |es| <= i < |es'| ==> es'[i].Other?
    ensures Exec(c, es').wake == W.Exec(Snapshot(c.games, TableOf(c, [])), wes')
    ensures Exec(c, es').games == Exec(c, es).games && Exec(c, es').committed == Exec(c, es).committed
    decreases |wes'|
  {
    if |wes| == |wes'| {
      assert wes == wes';
      es' := es;
    } else {
      var init, e := wes'[..|wes'| - 1], wes'[|wes'| - 1];
      es' := RemainingWork(c, es, wes, init);
      assert W.Finishes(e);
      ExecSnoc(c, es', Other(e));
      es' := es' + [Other(e)];
    }
  }

  /**
   From every reachable state each subscribed menu can become quiet, shown the registry as it is, with no
   change in between.
   */
  lemma MenusCanCatchUp(c: Config, es: seq<Event>, ch: W.Chan) returns (es': seq<Event>)
    requires ch in Exec(c, es).wake.board.subs
    ensures es <= es' && forall i :: |es| <= i < |es'| ==> es'[i].Other?
    ensures var s, t := Exec(c, es), Exec(c, es');
            && Quiet(t.wake, ch) && t.games == s.games && t.committed == s.committed
            && ch in t.wake.shown && t.wake.shown[ch] == Snapshot(s.games, TableOf(c, s.committed))
  {
    var wes := EveryRunIsASchedule(c, es);
    var wes' := W.OwnersCanCatchUp(Snapshot(c.games, TableOf(c, [])), wes, ch);
    es' := RemainingWork(c, es, wes, wes');
    QuietMenusAreCurrent(c, es', ch);
  }
}
