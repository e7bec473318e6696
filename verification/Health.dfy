/** The registry's health table: flap damping, out-of-band reports and reloads, and the history they amount to. */
module Health {
  import opened Common
  import opened Games

  datatype Health = Health(online: bool, fails: nat, lastChange: int, detectedVersion: string)

  type Table = map<string, Health>

  /** One probe's outcome; `version` is "" when the banner carries none. */
  datatype Probe = Probe(id: string, ok: bool, version: string)

  function Unknown(now: int): Health {
    Health(false, 0, now, "")
  }

  /** Online after one success, offline after `threshold` consecutive failures. */
  function Probed(threshold: nat, h: Health, p: Probe, now: int): Health {
    if p.ok then
      Health(true, 0, if h.online then h.lastChange else now, if p.version != "" then p.version else h.detectedVersion)
    else if h.online && h.fails + 1 >= threshold then h.(fails := h.fails + 1, online := false, lastChange := now)
    else h.(fails := h.fails + 1)
  }

  function Reported(threshold: nat, h: Health, now: int): Health {
    Health(false, if h.fails < threshold then threshold else h.fails,
           if h.online then now else h.lastChange, h.detectedVersion)
  }

  function Ids(games: seq<Game>): set<string> {
    set g | g in games :: g.id
  }

  /** A result for a game removed meanwhile is dropped. */
  function ProbeOne(threshold: nat, t: Table, p: Probe, now: int): Table {
    if p.id in t then t[p.id := Probed(threshold, t[p.id], p, now)] else t
  }

  function ProbeAll(threshold: nat, t: Table, results: seq<Probe>, now: int): Table {
    if results == [] then t
    else ProbeOne(threshold, ProbeAll(threshold, t, results[..|results| - 1], now), results[|results| - 1], now)
  }

  function ReportOne(threshold: nat, t: Table, id: string, now: int): Table {
    if id in t then t[id := Reported(threshold, t[id], now)] else t
  }

  /** A reload keeps the health of games that stay and starts new ones offline. */
  function Reloaded(t: Table, games: seq<Game>, now: int): Table {
    map id | id in Ids(games) :: if id in t then t[id] else Unknown(now)
  }

  /** What the menu can see of the table. */
  function Visible(t: Table): map<string, bool> {
    map id | id in t :: t[id].online
  }

  lemma VisibleDiffers(t: Table, t': Table)
    requires t.Keys == t'.Keys
    ensures Visible(t) != Visible(t') <==> exists id :: id in t && t[id].online != t'[id].online
  {
    if id :| id in t && t[id].online != t'[id].online {
      assert Visible(t)[id] != Visible(t')[id];
    }
  }

  /** Some result, when it was applied, flipped a game. */
  function Flips(threshold: nat, t: Table, results: seq<Probe>, now: int): bool {
    results != [] &&
    var before, p := ProbeAll(threshold, t, results[..|results| - 1], now), results[|results| - 1];
    || Flips(threshold, t, results[..|results| - 1], now)
    || (p.id in before && Probed(threshold, before[p.id], p, now).online != before[p.id].online)
  }

  ghost predicate DistinctResults(results: seq<Probe>) {
    forall i, j :: 0 <= i < j < |results| ==> results[i].id != results[j].id
  }

  /** Without a flip nothing visible changed; with distinct games a flip is visible. */
  lemma {:induction false} FlipsShow(threshold: nat, t: Table, results: seq<Probe>, now: int)
    ensures var t' := ProbeAll(threshold, t, results, now);
            && t'.Keys == t.Keys
            && (forall id :: id in t && (forall k :: 0 <= k < |results| ==> results[k].id != id) ==> t'[id] == t[id])
            && (!Flips(threshold, t, results, now) ==> forall id :: id in t ==> t'[id].online == t[id].online)
            && (Flips(threshold, t, results, now) && DistinctResults(results) ==>
                  exists id :: id in t && t[id].online != t'[id].online)
  {
    if results != [] {
      var init, p := results[..|results| - 1], results[|results| - 1];
      FlipsShow(threshold, t, init, now);
      var before := ProbeAll(threshold, t, init, now);
      if DistinctResults(results) {
        assert p.id in t ==> before[p.id] == t[p.id];
        if Flips(threshold, t, init, now) {
          var id :| id in t && t[id].online != before[id].online;
          assert id != p.id;
        }
      }
    }
  }

  lemma {:induction false} ProbesDateFlips(threshold: nat, t: Table, results: seq<Probe>, now: int, id: string)
    requires id in t && DistinctResults(results)
    ensures id in ProbeAll(threshold, t, results, now)
    ensures var h := ProbeAll(threshold, t, results, now)[id];
            h.lastChange == if h.online != t[id].online then now else t[id].lastChange
  {
    if results != [] {
      var init, p := results[..|results| - 1], results[|results| - 1];
      FlipsShow(threshold, t, init, now);
      ProbesDateFlips(threshold, t, init, now, id);
      var before := ProbeAll(threshold, t, init, now);
      if p.id == id {
        assert before[id] == t[id];
      } else {
        assert ProbeOne(threshold, before, p, now)[id] == before[id];
      }
    }
  }

  // ------------------------------------------------------------------- class

  class Registry {
    const failThreshold: nat
    var games: seq<Game>
    var health: Table

    ghost predicate Valid() reads this {
      && failThreshold > 0 && health.Keys == Ids(games)
      && forall id :: id in health && health[id].online ==> health[id].fails < failThreshold
    }

    constructor (games: seq<Game>, failThreshold: nat, now: int)
      requires failThreshold > 0
      ensures Valid() && this.games == games && this.failThreshold == failThreshold
      ensures health == Reloaded(map[], games, now)
    {
      this.games, this.failThreshold := games, failThreshold;
      var health: Table := map[];
      for i := 0 to |games|
        invariant health.Keys == Ids(games[..i])
        invariant forall id :: id in health ==> health[id] == Unknown(now)
      {
        health := health[games[i].id := Unknown(now)];
        assert Ids(games[..i + 1]) == Ids(games[..i]) + {games[i].id};
      }
      assert games[..|games|] == games;
      this.health := health;
    }

    method Report(id: string, now: int) returns (changed: bool)
      requires Valid()
      modifies `health
      ensures Valid() && health == ReportOne(failThreshold, old(health), id, now)
      ensures changed == Notifies(failThreshold, old(health), ReportDown(id, now))
      ensures changed <==> Visible(health) != Visible(old(health))
      ensures id in old(health) ==>
                var h, h' := old(health)[id], health[id];
                !h'.online && h'.fails == (if h.fails < failThreshold then failThreshold else h.fails)
      ensures forall other :: other in old(health) && other != id ==> health[other] == old(health)[other]
    {
      changed := false;
      if id in health {
        var h := health[id];
        if h.fails < failThreshold {
          h := h.(fails := failThreshold);
        }
        if h.online {
          h := h.(online := false, lastChange := now);
          changed := true;
        }
        health := health[id := h];
      }
      VisibleDiffers(old(health), health);
    }

    /** One result of a probe cycle; a game removed by a reload meanwhile is passed over. */
    method ApplyOne(res: Probe, now: int) returns (flipped: bool)
      requires Valid()
      modifies `health
      ensures Valid() && health == ProbeOne(failThreshold, old(health), res, now)
      ensures flipped <==> res.id in old(health) && health[res.id].online != old(health)[res.id].online
      ensures res.id in old(health) ==> health[res.id].fails == if res.ok then 0 else old(health)[res.id].fails + 1
    {
      flipped := false;
      if res.id !in health {
        return;
      }
      var h := health[res.id];
      if res.ok {
        h := h.(fails := 0);
        if res.version != "" {
          h := h.(detectedVersion := res.version);
        }
        if !h.online {
          h := h.(online := true, lastChange := now);
          flipped := true;
        }
      } else {
        h := h.(fails := h.fails + 1);
        if h.online && h.fails >= failThreshold {
          h := h.(online := false, lastChange := now);
          flipped := true;
        }
      }
      health := health[res.id := h];
    }

    /** The locked half of a probe cycle. */
    method Apply(results: seq<Probe>, now: int) returns (changed: bool)
      requires Valid()
      modifies `health
      ensures Valid() && health == ProbeAll(failThreshold, old(health), results, now)
      ensures changed == Notifies(failThreshold, old(health), Probes(results, now))
      ensures !changed ==> Visible(health) == Visible(old(health))
      ensures DistinctResults(results) ==> (changed <==> Visible(health) != Visible(old(health)))
    {
      changed := false;
      for i := 0 to |results|
        invariant Valid() && health == ProbeAll(failThreshold, old(health), results[..i], now)
        invariant changed == Flips(failThreshold, old(health), results[..i], now)
      {
        assert results[..i + 1][..i] == results[..i];
        var flipped := ApplyOne(results[i], now);
        changed := changed || flipped;
      }
      assert results[..|results|] == results;
      FlipsShow(failThreshold, old(health), results, now);
      VisibleDiffers(old(health), health);
    }

    /** Swaps in a new list, carrying over the health of the games that stay. */
    method Reload(games: seq<Game>, now: int)
      requires Valid()
      modifies this
      ensures Valid() && this.games == games && health == Reloaded(old(health), games, now)
    {
      this.games := games;
      var carried: Table := map[];
      for i := 0 to |games|
        invariant carried.Keys == Ids(games[..i])
        invariant forall id :: id in carried ==> carried[id] == if id in health then health[id] else Unknown(now)
      {
        var id := games[i].id;
        carried := carried[id := if id in health then health[id] else Unknown(now)];
        assert Ids(games[..i + 1]) == Ids(games[..i]) + {id};
      }
      assert games[..|games|] == games;
      health := carried;
    }

    /** The snapshot handed to menus: every game, in menu order, with its current health. */
    method Snapshot() returns (out: seq<GameStatus>)
      requires Valid()
      ensures |out| == |games|
      ensures forall i :: 0 <= i < |out| ==>
                && games[i].id in health
                && out[i] == GameStatus(games[i], health[games[i].id].online, health[games[i].id].lastChange,
                                        health[games[i].id].detectedVersion)
    {
      out := [];
      for i := 0 to |games|
        invariant |out| == i
        invariant forall j :: 0 <= j < i ==>
                    && games[j].id in health
                    && out[j] == GameStatus(games[j], health[games[j].id].online, health[games[j].id].lastChange,
                                            health[games[j].id].detectedVersion)
      {
        assert games[i] in games && games[i].id in Ids(games);
        var h := health[games[i].id];
        out := out + [GameStatus(games[i], h.online, h.lastChange, h.detectedVersion)];
      }
    }
  }

  // ----------------------------------------------------------------- history

  datatype Event =
    | Probes(results: seq<Probe>, now: int)
    | ReportDown(id: string, now: int)
    | Reload(games: seq<Game>, now: int)

  function Changed(threshold: nat, t: Table, e: Event): Table {
    match e
    case Probes(results, now) => ProbeAll(threshold, t, results, now)
    case ReportDown(id, now) => ReportOne(threshold, t, id, now)
    case Reload(games, now) => Reloaded(t, games, now)
  }

  /** The table after any interleaving of probe cycles, reports and reloads, from a boot with `games`. */
  function Exec(threshold: nat, games: seq<Game>, boot: int, es: seq<Event>): Table {
    if es == [] then Reloaded(map[], games, boot)
    else Changed(threshold, Exec(threshold, games, boot, es[..|es| - 1]), es[|es| - 1])
  }

  /** Whether the change is followed by a notify. */
  function Notifies(threshold: nat, t: Table, e: Event): bool {
    match e
    case Probes(results, now) => Flips(threshold, t, results, now)
    case ReportDown(id, _) => id in t && t[id].online
    case Reload(_, _) => true
  }

  /**
   The time shown is that of the last flip, or of the introduction: a change sets it exactly for the games it
   flips or introduces, which start offline, and leaves every other game's alone.
   */
  lemma LastChangeIsExact(threshold: nat, t: Table, e: Event, id: string)
    requires id in Changed(threshold, t, e) && (e.Probes? ==> DistinctResults(e.results))
    ensures var h := Changed(threshold, t, e)[id];
            && (h.lastChange == if id !in t || h.online != t[id].online then e.now else t[id].lastChange)
            && (id !in t ==> !h.online && h.detectedVersion == "")
  {
    if e.Probes? {
      FlipsShow(threshold, t, e.results, e.now);
      ProbesDateFlips(threshold, t, e.results, e.now, id);
    }
  }

  /** A change that shows is always followed by a notify. */
  lemma ChangesThatShowNotify(threshold: nat, t: Table, e: Event)
    ensures !Notifies(threshold, t, e) ==> !e.Reload? && Visible(Changed(threshold, t, e)) == Visible(t)
  {
    match e
    case Probes(results, now) => FlipsShow(threshold, t, results, now);
    case _ =>
  }

  /** What happened to one game. */
  datatype Observation = Success(version: string) | Failure | Down

  function ObservationsOf(results: seq<Probe>, id: string): seq<Observation> {
    if results == [] then []
    else
      var p := results[|results| - 1];
      ObservationsOf(results[..|results| - 1], id) +
      if p.id != id then [] else if p.ok then [Success(p.version)] else [Failure]
  }

  /** Everything that happened to a game since its ID was last introduced, or None while it is not listed. */
  function History(games: seq<Game>, id: string, es: seq<Event>): Option<seq<Observation>> {
    if es == [] then (if id in Ids(games) then Some([]) else None)
    else
      var h := History(games, id, es[..|es| - 1]);
      match es[|es| - 1]
      case Probes(results, _) => if h.None? then None else Some(h.value + ObservationsOf(results, id))
      case ReportDown(id', _) => if h.None? || id' != id then h else Some(h.value + [Down])
      case Reload(games', _) => if id !in Ids(games') then None else if h.None? then Some([]) else h
  }

  /** Some success was followed by nothing but failures, and by fewer than `threshold` of them. */
  ghost predicate Up(h: seq<Observation>, threshold: nat) {
    exists k :: 0 <= k < |h| && h[k].Success? && |h| - 1 - k < threshold && forall j :: k < j < |h| ==> h[j].Failure?
  }

  /** The last version a successful probe showed. */
  function LastVersion(h: seq<Observation>): string {
    if h == [] then ""
    else
      var o := h[|h| - 1];
      if o.Success? && o.version != "" then o.version else LastVersion(h[..|h| - 1])
  }

  function Trailing(h: seq<Observation>): nat {
    if h != [] && h[|h| - 1].Failure? then 1 + Trailing(h[..|h| - 1]) else 0
  }

  lemma {:induction false} TrailingAreFailures(h: seq<Observation>)
    ensures Trailing(h) <= |h| && forall j :: |h| - Trailing(h) <= j < |h| ==> h[j].Failure?
    ensures Trailing(h) < |h| ==> !h[|h| - 1 - Trailing(h)].Failure?
  {
    if h != [] && h[|h| - 1].Failure? {
      TrailingAreFailures(h[..|h| - 1]);
    }
  }

  lemma UpIsTrailing(h: seq<Observation>, threshold: nat)
    ensures Up(h, threshold) <==>
            Trailing(h) < |h| && Trailing(h) < threshold && h[|h| - 1 - Trailing(h)].Success?
  {
    TrailingAreFailures(h);
  }

  ghost predicate Agrees(x: Health, h: seq<Observation>, threshold: nat) {
    && (x.online <==> Up(h, threshold))
    && (x.online ==> x.fails == Trailing(h))
    && x.detectedVersion == LastVersion(h)
  }

  lemma SuccessAgrees(x: Health, h: seq<Observation>, threshold: nat, version: string, x': Health)
    requires threshold > 0 && Agrees(x, h, threshold)
    requires x'.online && x'.fails == 0 && x'.detectedVersion == if version != "" then version else x.detectedVersion
    ensures Agrees(x', h + [Success(version)], threshold)
  {
    assert (h + [Success(version)])[..|h|] == h;
    assert (h + [Success(version)])[|h|].Success?;
  }

  lemma DownAgrees(x: Health, h: seq<Observation>, threshold: nat, now: int)
    requires Agrees(x, h, threshold)
    ensures Agrees(Reported(threshold, x, now), h + [Down], threshold)
  {
    assert (h + [Down])[..|h|] == h;
    assert (h + [Down])[|h|] == Down;
  }

  lemma FailureAgrees(x: Health, h: seq<Observation>, threshold: nat, p: Probe, now: int)
    requires Agrees(x, h, threshold) && !p.ok
    ensures Agrees(Probed(threshold, x, p, now), h + [Failure], threshold)
  {
    var after := h + [Failure];
    assert after[..|h|] == h;
    assert Trailing(after) == 1 + Trailing(h);
    UpIsTrailing(h, threshold);
    UpIsTrailing(after, threshold);
    assert Trailing(h) < |h| ==> after[|after| - 1 - Trailing(after)] == h[|h| - 1 - Trailing(h)];
  }

  lemma ObservationAgrees(x: Health, h: seq<Observation>, threshold: nat, p: Probe, now: int)
    requires threshold > 0 && Agrees(x, h, threshold)
    ensures Agrees(Probed(threshold, x, p, now), h + [if p.ok then Success(p.version) else Failure], threshold)
  {
    if p.ok {
      SuccessAgrees(x, h, threshold, p.version, Probed(threshold, x, p, now));
    } else {
      FailureAgrees(x, h, threshold, p, now);
    }
  }

  lemma {:induction false} ProbesAgree(
    threshold: nat, t: Table, results: seq<Probe>, now: int, id: string, h: seq<Observation>)
    requires threshold > 0 && (id in t ==> Agrees(t[id], h, threshold))
    ensures id in ProbeAll(threshold, t, results, now) <==> id in t
    ensures id in t ==> Agrees(ProbeAll(threshold, t, results, now)[id], h + ObservationsOf(results, id), threshold)
  {
    if results == [] {
      assert h + [] == h;
    } else {
      var init, p := results[..|results| - 1], results[|results| - 1];
      ProbesAgree(threshold, t, init, now, id, h);
      var seen := h + ObservationsOf(init, id);
      if id in t && p.id == id {
        ObservationAgrees(ProbeAll(threshold, t, init, now)[id], seen, threshold, p, now);
        assert h + ObservationsOf(results, id) == seen + [if p.ok then Success(p.version) else Failure];
      } else if id in t {
        assert h + ObservationsOf(results, id) == seen;
      }
    }
  }

  /**
   After any interleaving, a game is listed exactly when it has a history, and it is online exactly when,
   since its ID was last introduced, a success was followed by no report and fewer than `threshold`
   failures.  Its version is the last one seen.
   */
  lemma {:induction false} HealthIsItsHistory(threshold: nat, games: seq<Game>, boot: int, es: seq<Event>, id: string)
    requires threshold > 0
    ensures var t, h := Exec(threshold, games, boot, es), History(games, id, es);
            && (id in t <==> h.Some?)
            && (id in t ==> Agrees(t[id], h.value, threshold))
  {
    if es != [] {
      var init, e := es[..|es| - 1], es[|es| - 1];
      HealthIsItsHistory(threshold, games, boot, init, id);
      var t, h := Exec(threshold, games, boot, init), History(games, id, init);
      match e
      case Probes(results, now) => ProbesAgree(threshold, t, results, now, id, if h.Some? then h.value else []);
      case ReportDown(id', now) =>
        if id in t && id' == id {
          DownAgrees(t[id], h.value, threshold, now);
        }
      case Reload(_, _) =>
    }
  }
}
