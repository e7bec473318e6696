/**
 The input pump, step by step: one goroutine reads the session and writes each chunk into whichever
 pipe is the destination at that moment, while the handler switches destinations and closes pipes.
 */
module InputPump {
  import opened Common

  const BUFFER_SIZE := 1024

  /** A pipe: what its reader has taken, and the part of the session it was the destination for. */
  datatype Pipe = Pipe(
    received: seq<Byte>,
    start: nat,             // first session byte looked up after it became the destination
    stop: Option<nat>,      // first session byte looked up after it was replaced
    open: bool,             // neither end has been closed
    eof: bool,              // closed by the pump at the end of the session
    late: bool)             // became the destination after the pump's last look

  /** Where the pump's goroutine is. */
  datatype Loop =
    | Reading
    | Holding(lo: nat, last: bool)                          // read session[lo..]; `last` when an error came with it
    | Writing(to: PipeId, at: nat, hi: nat, last: bool)     // bytes from `at` up to `hi` are still offered
    | Ending                                                // about to look up the destination to close
    | Closing(found: Option<PipeId>)
    | Finished

  datatype State = State(session: seq<Byte>, dst: Option<PipeId>, loop: Loop, pipes: seq<Pipe>)

  const INIT := State([], None, Reading, [])

  datatype Event =
    | Read(chunk: seq<Byte>, last: bool)
    | LookUp
    | Take(n: nat)              // the reader takes bytes of the write in flight
    | WriteReturns
    | Find | CloseFound         // `closeDest`: its critical section, then the close
    | SetDest | ClearDest       // the handler installs a fresh pipe, or nil
    | ClosePipe(p: PipeId)      // the handler closes both ends of a pipe

  /** First session byte whose destination has not been looked up yet. */
  function Next(s: State): nat {
    if s.loop.Holding? then s.loop.lo else |s.session|
  }

  /** The current destination, if any, stops at the next byte. */
  function Retired(s: State): seq<Pipe> {
    if s.dst.Some? && s.dst.value < |s.pipes| then
      s.pipes[s.dst.value := s.pipes[s.dst.value].(stop := Some(Next(s)))]
    else s.pipes
  }

  /** One atomic step; an event that is not enabled changes nothing. */
  function Step(s: State, e: Event): State {
    match e
    case Read(chunk, last) =>
      if !s.loop.Reading? || |chunk| > BUFFER_SIZE then s
      else if chunk == [] then s.(loop := if last then Ending else Reading)
      else s.(session := s.session + chunk, loop := Holding(|s.session|, last))
    case LookUp =>
      if !s.loop.Holding? then s
      else if s.dst.Some? then s.(loop := Writing(s.dst.value, s.loop.lo, |s.session|, s.loop.last))
      else s.(loop := if s.loop.last then Ending else Reading)
    case Take(n) =>
      if !s.loop.Writing? || s.loop.to >= |s.pipes| || !s.pipes[s.loop.to].open
         || s.loop.hi > |s.session| || s.loop.at + n > s.loop.hi then s
      else
        var p := s.pipes[s.loop.to];
        s.(pipes := s.pipes[s.loop.to := p.(received := p.received + s.session[s.loop.at..s.loop.at + n])],
           loop := s.loop.(at := s.loop.at + n))
    case WriteReturns =>
      if !s.loop.Writing? || s.loop.to >= |s.pipes| || (s.pipes[s.loop.to].open && s.loop.at < s.loop.hi) then s
      else s.(loop := if s.loop.last then Ending else Reading)
    case Find =>
      if s.loop.Ending? then s.(loop := Closing(s.dst)) else s
    case CloseFound =>
      if !s.loop.Closing? then s
      else if s.loop.found.None? || s.loop.found.value >= |s.pipes| || !s.pipes[s.loop.found.value].open then
        s.(loop := Finished)
      else s.(pipes := s.pipes[s.loop.found.value := s.pipes[s.loop.found.value].(open := false, eof := true)],
              loop := Finished)
    case SetDest =>
      var late := s.loop.Closing? || s.loop.Finished?;
      s.(pipes := Retired(s) + [Pipe([], Next(s), None, true, false, late)], dst := Some(|s.pipes|))
    case ClearDest => s.(pipes := Retired(s), dst := None)
    case ClosePipe(p) =>
      if p >= |s.pipes| then s else s.(pipes := s.pipes[p := s.pipes[p].(open := false)])
  }

  function Exec(es: seq<Event>): State {
    if es == [] then INIT else Step(Exec(es[..|es| - 1]), es[|es| - 1])
  }

  // ---------------------------------------------------------------- invariants

  /** End of the part of the session that pipe `i` may see. */
  function Bound(s: State, i: PipeId): nat
    requires i < |s.pipes|
  {
    if s.pipes[i].stop.Some? then s.pipes[i].stop.value else Next(s)
  }

  /** The session byte that comes after everything the pipe's reader has taken. */
  function Reached(p: Pipe): nat {
    p.start + |p.received|
  }

  /** The reader's bytes are the session from the pipe's start on, with nothing missing while it is open. */
  ghost predicate ContentOk(s: State, i: PipeId)
    requires i < |s.pipes|
  {
    var p := s.pipes[i];
    && Reached(p) <= Bound(s, i) <= Next(s) <= |s.session|
    && p.received == s.session[p.start..Reached(p)]
    && (p.open && !(s.loop.Writing? && s.loop.to == i) ==> Reached(p) == Bound(s, i))
  }

  /** Which pipe is the destination, and which ones the pump closes. */
  ghost predicate EndOk(s: State, i: PipeId)
    requires i < |s.pipes|
  {
    var p := s.pipes[i];
    && (p.stop == None <==> s.dst == Some(i))
    && (p.eof ==> s.loop.Finished? && !p.open && Reached(p) == Bound(s, i))
    && (p.late ==> !p.eof && (s.loop.Closing? || s.loop.Finished?) && s.loop != Closing(Some(i)))
    && (s.loop.Closing? && s.dst == Some(i) && !p.late ==> s.loop.found == Some(i))
    && (s.loop.Finished? && s.dst == Some(i) && !p.late ==> !p.open)
  }

  ghost predicate LoopOk(s: State) {
    && (s.dst.Some? ==> s.dst.value < |s.pipes|)
    && match s.loop
       case Holding(lo, _) => lo < |s.session|
       case Writing(to, at, hi, _) =>
         && to < |s.pipes| && at <= hi == |s.session| && Reached(s.pipes[to]) <= hi
         && (s.pipes[to].open ==> Reached(s.pipes[to]) == at)
         && Bound(s, to) == hi
       case Closing(Some(to)) => to < |s.pipes|
       case _ => true
  }

  /** Destinations follow one another in session order. */
  ghost predicate Disjoint(s: State) {
    forall i, j :: 0 <= i < j < |s.pipes| ==> InOrder(s, i, j)
  }

  ghost predicate InOrder(s: State, i: PipeId, j: PipeId)
    requires i < |s.pipes| && j < |s.pipes|
  {
    s.pipes[i].stop.Some? && s.pipes[i].stop.value <= s.pipes[j].start
  }

  ghost predicate Inv(s: State) {
    && LoopOk(s) && Disjoint(s)
    && forall i :: 0 <= i < |s.pipes| ==> ContentOk(s, i) && EndOk(s, i)
  }

  lemma StepKeepsContent(s: State, e: Event, i: PipeId)
    requires Inv(s) && i < |Step(s, e).pipes|
    ensures ContentOk(Step(s, e), i)
  {
    assert i < |s.pipes| ==> ContentOk(s, i) && EndOk(s, i);
  }

  lemma StepKeepsEnd(s: State, e: Event, i: PipeId)
    requires Inv(s) && i < |Step(s, e).pipes|
    ensures EndOk(Step(s, e), i)
  {
    assert i < |s.pipes| ==> ContentOk(s, i) && EndOk(s, i);
  }

  lemma StepKeepsLoop(s: State, e: Event)
    requires Inv(s)
    ensures LoopOk(Step(s, e))
  {
    assert s.dst.Some? ==> ContentOk(s, s.dst.value) && EndOk(s, s.dst.value);
    assert s.loop.Writing? ==> ContentOk(s, s.loop.to) && EndOk(s, s.loop.to);
  }

  lemma StepKeepsInOrder(s: State, e: Event, i: PipeId, j: PipeId)
    requires Inv(s) && i < j < |Step(s, e).pipes|
    ensures InOrder(Step(s, e), i, j)
  {
    assert i < |s.pipes| && ContentOk(s, i) && EndOk(s, i);
    if j < |s.pipes| {
      assert EndOk(s, j) && InOrder(s, i, j);
    }
  }

  lemma StepKeepsDisjoint(s: State, e: Event)
    requires Inv(s)
    ensures Disjoint(Step(s, e))
  {
    forall i, j | 0 <= i < j < |Step(s, e).pipes| ensures InOrder(Step(s, e), i, j) {
      StepKeepsInOrder(s, e, i, j);
    }
  }

  lemma {:induction false} EveryScheduleKeepsInv(es: seq<Event>)
    ensures Inv(Exec(es))
  {
    if es != [] {
      var s, e := Exec(es[..|es| - 1]), es[|es| - 1];
      EveryScheduleKeepsInv(es[..|es| - 1]);
      StepKeepsLoop(s, e);
      StepKeepsDisjoint(s, e);
      forall i | 0 <= i < |Step(s, e).pipes| ensures ContentOk(Step(s, e), i) && EndOk(Step(s, e), i) {
        StepKeepsContent(s, e, i);
        StepKeepsEnd(s, e, i);
      }
    }
  }

  lemma ExecSnoc(es: seq<Event>, e: Event)
    ensures Exec(es + [e]) == Step(Exec(es), e)
  {
    assert (es + [e])[..|es + [e]| - 1] == es;
  }

  // ------------------------------------------------------------------ results

  /** A fresh pipe becomes the destination from the next byte on, and the one before stops there. */
  lemma SettingSets(s: State)
    requires LoopOk(s)
    ensures var t := Step(s, SetDest);
            && t.dst == Some(|s.pipes|) && |t.pipes| == |s.pipes| + 1
            && t.pipes[|s.pipes|].open && t.pipes[|s.pipes|].received == [] && t.pipes[|s.pipes|].start == Next(s)
            && (s.dst.Some? ==> t.pipes[s.dst.value].stop == Some(Next(s)))
  {}

  /** Clearing leaves no destination, and a closed pipe is closed. */
  lemma ClearingAndClosing(s: State, p: PipeId)
    ensures Step(s, ClearDest).dst == None
    ensures p < |s.pipes| ==> Closed(Step(s, ClosePipe(p)), p)
  {}

  /** Once the session ends the pump can finish, and it then has ended the destination set at that moment. */
  lemma InputCanEnd(es: seq<Event>) returns (es': seq<Event>)
    requires Exec(es).loop.Reading?
    ensures var s, t := Exec(es), Exec(es');
            && es <= es' && t.loop.Finished? && t.dst == s.dst
            && (s.dst.Some? ==> s.dst.value < |s.pipes| == |t.pipes| && !t.pipes[s.dst.value].open
                                && (s.pipes[s.dst.value].open ==> t.pipes[s.dst.value].eof))
  {
    EveryScheduleKeepsInv(es);
    es' := es + [Read([], true)];
    ExecSnoc(es, Read([], true));
    ExecSnoc(es', Find);
    es' := es' + [Find];
    ExecSnoc(es', CloseFound);
    es' := es' + [CloseFound];
  }

  ghost predicate Closed(s: State, i: PipeId) {
    i < |s.pipes| && !s.pipes[i].open
  }

  lemma ClosedStep(s: State, e: Event, i: PipeId)
    requires Closed(s, i)
    ensures Closed(Step(s, e), i) && Step(s, e).pipes[i].received == s.pipes[i].received
  {}

  /** Nothing reaches the reader of a closed pipe, and it stays closed. */
  lemma {:induction false} ClosedPipeIsFrozen(es: seq<Event>, later: seq<Event>, i: PipeId)
    requires Closed(Exec(es), i)
    ensures Closed(Exec(es + later), i) && Exec(es + later).pipes[i].received == Exec(es).pipes[i].received
  {
    if later == [] {
      assert es + later == es;
    } else {
      var before, e := es + later[..|later| - 1], later[|later| - 1];
      ClosedPipeIsFrozen(es, later[..|later| - 1], i);
      assert es + later == before + [e];
      ExecSnoc(before, e);
      ClosedStep(Exec(before), e, i);
    }
  }

  /**
   The reader of a destination has taken a prefix of one contiguous slice of the session, and the
   slices of successive destinations are disjoint and in session order.
   */
  lemma DestinationsReadTheSession(es: seq<Event>, i: PipeId)
    requires i < |Exec(es).pipes|
    ensures var s := Exec(es);
            && Reached(s.pipes[i]) <= Bound(s, i) <= |s.session|
            && s.pipes[i].received == s.session[s.pipes[i].start..Reached(s.pipes[i])]
            && forall j :: i < j < |s.pipes| ==> Bound(s, i) <= s.pipes[j].start
  {
    EveryScheduleKeepsInv(es);
    assert ContentOk(Exec(es), i);
    forall j | i < j < |Exec(es).pipes| ensures Bound(Exec(es), i) <= Exec(es).pipes[j].start {
      assert InOrder(Exec(es), i, j);
    }
  }

  /** While its pipe stays open, a destination misses nothing: between writes it has its whole slice. */
  lemma OpenDestinationsMissNothing(es: seq<Event>, i: PipeId)
    requires i < |Exec(es).pipes| && Exec(es).pipes[i].open
    requires !(Exec(es).loop.Writing? && Exec(es).loop.to == i)
    ensures var s := Exec(es);
            && s.pipes[i].start <= Bound(s, i) <= |s.session|
            && s.pipes[i].received == s.session[s.pipes[i].start..Bound(s, i)]
  {
    EveryScheduleKeepsInv(es);
    assert ContentOk(Exec(es), i);
  }

  /** A pipe that is not the destination and has no write left in flight. */
  ghost predicate Retiree(s: State, i: PipeId) {
    i < |s.pipes| && s.dst != Some(i) && !(s.loop.Writing? && s.loop.to == i)
  }

  lemma RetireeStep(s: State, e: Event, i: PipeId)
    requires Retiree(s, i)
    ensures Retiree(Step(s, e), i) && Step(s, e).pipes[i].received == s.pipes[i].received
  {}

  /** The write under way when a destination is replaced is the last that ever reaches it. */
  lemma {:induction false} ReplacedDestinationIsFrozen(es: seq<Event>, later: seq<Event>, i: PipeId)
    requires Retiree(Exec(es), i)
    ensures Retiree(Exec(es + later), i) && Exec(es + later).pipes[i].received == Exec(es).pipes[i].received
  {
    if later == [] {
      assert es + later == es;
    } else {
      var before, e := es + later[..|later| - 1], later[|later| - 1];
      ReplacedDestinationIsFrozen(es, later[..|later| - 1], i);
      assert es + later == before + [e];
      ExecSnoc(before, e);
      RetireeStep(Exec(before), e, i);
    }
  }

  /** The pump ends a destination's input only after every byte of its slice, the last chunk included, was read. */
  lemma EndOfInputComesLast(es: seq<Event>, i: PipeId)
    requires i < |Exec(es).pipes| && Exec(es).pipes[i].eof
    ensures var s := Exec(es);
            && s.loop.Finished? && s.pipes[i].start <= Bound(s, i) <= |s.session|
            && s.pipes[i].received == s.session[s.pipes[i].start..Bound(s, i)]
            && (s.dst == Some(i) ==> Bound(s, i) == |s.session|)
  {
    EveryScheduleKeepsInv(es);
    assert ContentOk(Exec(es), i) && EndOk(Exec(es), i);
  }

  /**
   Once the pump has finished, the current destination has been closed unless it was installed after the
   pump's last look; such a late destination is never ended by the pump.
   */
  lemma LateDestinationsAreNotEnded(es: seq<Event>, i: PipeId)
    requires i < |Exec(es).pipes| && Exec(es).loop.Finished? && Exec(es).dst == Some(i)
    ensures !Exec(es).pipes[i].late ==> !Exec(es).pipes[i].open
    ensures Exec(es).pipes[i].late ==> !Exec(es).pipes[i].eof
  {
    EveryScheduleKeepsInv(es);
    assert EndOk(Exec(es), i);
  }

  /** And there are late destinations: one installed after the session's end stays open with no end of input. */
  lemma LateDestinationExists()
    ensures var s := Exec([Read([], true), Find, CloseFound, SetDest]);
            && s.loop.Finished? && s.dst == Some(0) && |s.pipes| == 1
            && s.pipes[0].late && s.pipes[0].open && !s.pipes[0].eof
  {
    var es1: seq<Event> := [Read([], true)];
    var es2, es3 := es1 + [Find], es1 + [Find] + [CloseFound];
    ExecSnoc([], Read([], true));
    assert [] + [Read([], true)] == es1;
    assert Exec(es1) == State([], None, Ending, []);
    ExecSnoc(es1, Find);
    assert Exec(es2) == State([], None, Closing(None), []);
    ExecSnoc(es2, CloseFound);
    assert Exec(es3) == State([], None, Finished, []);
    ExecSnoc(es3, SetDest);
    assert es3 + [SetDest] == [Read([], true), Find, CloseFound, SetDest];
  }

  // ------------------------------------------------------------ turn by turn

  /** One read of the session, and the destination the handler has set by the time it is looked up. */
  datatype Turn<D> = Turn(chunk: seq<Byte>, last: bool, destination: Option<D>)

  /** Only the last read comes with the error that ends the session. */
  ghost predicate Complete<D>(turns: seq<Turn<D>>) {
    turns != [] && forall k :: 0 <= k < |turns| ==> (turns[k].last <==> k == |turns| - 1)
  }

  function OnlyIf(c: bool, bytes: seq<Byte>): seq<Byte> {
    if c then bytes else []
  }

  /** The part of the first n turns routed to one destination. */
  function Routed<D(==)>(turns: seq<Turn<D>>, n: nat, d: D): seq<Byte>
    requires n <= |turns|
  {
    if n == 0 then [] else Routed(turns, n - 1, d) + OnlyIf(turns[n - 1].destination == Some(d), turns[n - 1].chunk)
  }

  /** The destination after n turns, and the number of pipes made for them, when each is fresh as it is set. */
  function Current(turns: seq<Turn<PipeId>>, n: nat): Option<PipeId>
    requires n <= |turns|
  {
    if n == 0 then None else turns[n - 1].destination
  }

  function Made(turns: seq<Turn<PipeId>>, n: nat): nat
    requires n <= |turns|
  {
    if n == 0 then 0
    else if turns[n - 1].destination == Some(Made(turns, n - 1)) then Made(turns, n - 1) + 1
    else Made(turns, n - 1)
  }

  /** The handler keeps the destination, clears it, or sets a fresh pipe. */
  ghost predicate Switches(turns: seq<Turn<PipeId>>) {
    forall k :: 0 <= k < |turns| ==>
      || turns[k].destination == None || turns[k].destination == Current(turns, k)
      || turns[k].destination == Some(Made(turns, k))
  }

  ghost predicate Fits(turns: seq<Turn<PipeId>>) {
    forall k :: 0 <= k < |turns| ==> |turns[k].chunk| <= BUFFER_SIZE
  }

  /** Between turns: every pipe is open and has exactly the bytes routed to it. */
  ghost predicate Kept(s: State, turns: seq<Turn<PipeId>>, n: nat)
    requires n <= |turns|
  {
    && s.loop == (if 0 < n && turns[n - 1].last then Ending else Reading)
    && s.dst == Current(turns, n) && |s.pipes| == Made(turns, n) && (s.dst.Some? ==> s.dst.value < |s.pipes|)
    && forall i :: 0 <= i < |s.pipes| ==> s.pipes[i].open && s.pipes[i].received == Routed(turns, n, i)
  }

  /** The handler's part of a turn. */
  function Switched(s: State, d: Option<PipeId>): State {
    if d == s.dst then s else Step(s, if d == None then ClearDest else SetDest)
  }

  /** The pump's part of a turn, with a reader that takes the whole chunk. */
  function Pumped(s: State, chunk: seq<Byte>, last: bool): State {
    var read := Step(s, Read(chunk, last));
    if chunk == [] then read
    else
      var found := Step(read, LookUp);
      if found.loop.Writing? then Step(Step(found, Take(|chunk|)), WriteReturns) else found
  }

  lemma SwitchedSchedule(es: seq<Event>, d: Option<PipeId>) returns (es': seq<Event>)
    ensures Exec(es') == Switched(Exec(es), d)
  {
    es' := es;
    if d != Exec(es).dst {
      var e := if d == None then ClearDest else SetDest;
      ExecSnoc(es, e);
      es' := es + [e];
    }
  }

  lemma PumpedSchedule(es: seq<Event>, chunk: seq<Byte>, last: bool) returns (es': seq<Event>)
    ensures Exec(es') == Pumped(Exec(es), chunk, last)
  {
    es' := es + [Read(chunk, last)];
    ExecSnoc(es, Read(chunk, last));
    if chunk != [] {
      ExecSnoc(es', LookUp);
      es' := es' + [LookUp];
      if Exec(es').loop.Writing? {
        ExecSnoc(es', Take(|chunk|));
        es' := es' + [Take(|chunk|)];
        ExecSnoc(es', WriteReturns);
        es' := es' + [WriteReturns];
      }
    }
  }

  lemma PumpedDelivers(s: State, chunk: seq<Byte>, last: bool)
    requires s.loop == Reading && |chunk| <= BUFFER_SIZE
    requires s.dst.Some? ==> s.dst.value < |s.pipes| && s.pipes[s.dst.value].open
    ensures var t := Pumped(s, chunk, last);
            && t.loop == (if last then Ending else Reading) && t.dst == s.dst && |t.pipes| == |s.pipes|
            && forall i :: 0 <= i < |s.pipes| ==>
                 t.pipes[i].open == s.pipes[i].open
                 && t.pipes[i].received == s.pipes[i].received + OnlyIf(s.dst == Some(i), chunk)
  {
    var session := s.session + chunk;
    assert session[|s.session|..|s.session| + |chunk|] == chunk;
  }

  lemma SwitchedKeeps(s: State, d: Option<PipeId>)
    requires s.dst.Some? ==> s.dst.value < |s.pipes|
    requires d == None || d == s.dst || d == Some(|s.pipes|)
    ensures var t := Switched(s, d);
            && t.loop == s.loop && t.dst == d
            && |t.pipes| == (if d == Some(|s.pipes|) then |s.pipes| + 1 else |s.pipes|)
            && (forall i :: 0 <= i < |s.pipes| ==>
                  t.pipes[i].open == s.pipes[i].open && t.pipes[i].received == s.pipes[i].received)
            && (d == Some(|s.pipes|) ==> t.pipes[|s.pipes|].open && t.pipes[|s.pipes|].received == [])
  {}

  lemma {:induction false} NothingRoutedYet(turns: seq<Turn<PipeId>>, n: nat, i: PipeId)
    requires n <= |turns| && Switches(turns) && Made(turns, n) <= i
    ensures Routed(turns, n, i) == [] && Current(turns, n) != Some(i)
  {
    if n > 0 {
      NothingRoutedYet(turns, n - 1, i);
      assert turns[n - 1].destination == None || turns[n - 1].destination == Current(turns, n - 1)
        || turns[n - 1].destination == Some(Made(turns, n - 1));
    }
  }

  /** What one turn does to the pipes there were and to the one it may make. */
  ghost predicate TurnDone(s: State, t: State, turn: Turn<PipeId>) {
    && t.loop == (if turn.last then Ending else Reading) && t.dst == turn.destination
    && |t.pipes| == (if turn.destination == Some(|s.pipes|) then |s.pipes| + 1 else |s.pipes|)
    && (forall i :: 0 <= i < |s.pipes| ==>
          t.pipes[i].open == s.pipes[i].open
          && t.pipes[i].received == s.pipes[i].received + OnlyIf(turn.destination == Some(i), turn.chunk))
    && (turn.destination == Some(|s.pipes|) ==>
          t.pipes[|s.pipes|].open && t.pipes[|s.pipes|].received == turn.chunk)
  }

  lemma TurnDelivers(s: State, turn: Turn<PipeId>)
    requires s.loop == Reading && |turn.chunk| <= BUFFER_SIZE
    requires s.dst.Some? ==> s.dst.value < |s.pipes|
    requires forall i :: 0 <= i < |s.pipes| ==> s.pipes[i].open
    requires turn.destination == None || turn.destination == s.dst || turn.destination == Some(|s.pipes|)
    ensures TurnDone(s, Pumped(Switched(s, turn.destination), turn.chunk, turn.last), turn)
  {
    SwitchedKeeps(s, turn.destination);
    PumpedDelivers(Switched(s, turn.destination), turn.chunk, turn.last);
  }

  lemma TurnKeeps(s: State, t: State, turns: seq<Turn<PipeId>>, n: nat)
    requires n < |turns| && Switches(turns) && Kept(s, turns, n) && TurnDone(s, t, turns[n])
    ensures Kept(t, turns, n + 1)
  {
    var d := turns[n].destination;
    assert d == None || d == Current(turns, n) || d == Some(Made(turns, n));
    NothingRoutedYet(turns, n, Made(turns, n));
    forall i | 0 <= i < |t.pipes| ensures t.pipes[i].open && t.pipes[i].received == Routed(turns, n + 1, i) {
      if i < |s.pipes| {
        assert s.pipes[i].open && s.pipes[i].received == Routed(turns, n, i);
      }
    }
  }

  /** The pump's loop taken turn by turn is one of the schedules: the schedules deliver what the turns route. */
  lemma {:induction false} TurnsAreASchedule(turns: seq<Turn<PipeId>>, n: nat) returns (es: seq<Event>)
    requires n <= |turns| && Complete(turns) && Switches(turns) && Fits(turns)
    ensures Kept(Exec(es), turns, n)
  {
    if n == 0 {
      es := [];
    } else {
      var t := turns[n - 1];
      es := TurnsAreASchedule(turns, n - 1);
      assert n > 1 ==> !turns[n - 2].last;
      TurnDelivers(Exec(es), t);
      TurnKeeps(Exec(es), Pumped(Switched(Exec(es), t.destination), t.chunk, t.last), turns, n - 1);
      es := SwitchedSchedule(es, t.destination);
      es := PumpedSchedule(es, t.chunk, t.last);
    }
  }

  // ------------------------------------------------------------- the Go objects

  /** A destination: the bytes its reader has taken, and whether it has been closed. */
  class Sink {
    var received: seq<Byte>
    var open: bool

    constructor ()
      ensures received == [] && open
    {
      received, open := [], true;
    }

    /** A write to a closed pipe fails and delivers nothing. */
    method Write(chunk: seq<Byte>)
      modifies `received
      ensures received == old(received) + if open then chunk else []
    {
      if open {
        received := received + chunk;
      }
    }

    method Close()
      modifies `open
      ensures !open
    {
      open := false;
    }
  }

  /** What a sink that had read `before` has read after the first n turns. */
  function After(before: seq<Byte>, open: bool, turns: seq<Turn<Sink>>, n: nat, s: Sink): seq<Byte>
    requires n <= |turns|
  {
    if n == 0 then before
    else After(before, open, turns, n - 1, s) + OnlyIf(open && turns[n - 1].destination == Some(s), turns[n - 1].chunk)
  }

  lemma {:induction false} AfterIsRouted(before: seq<Byte>, open: bool, turns: seq<Turn<Sink>>, n: nat, s: Sink)
    requires n <= |turns|
    ensures After(before, open, turns, n, s) == before + OnlyIf(open, Routed(turns, n, s))
  {
    if n > 0 {
      AfterIsRouted(before, open, turns, n - 1, s);
      var routed, more := Routed(turns, n - 1, s), OnlyIf(turns[n - 1].destination == Some(s), turns[n - 1].chunk);
      assert (before + routed) + more == before + (routed + more) && before + [] == before;
    }
  }

  class Pump {
    var dst: Sink?
    var done: bool

    constructor ()
      ensures dst == null && !done
    {
      dst, done := null, false;
    }

    /** The previous destination is left as it is. */
    method SetDest(s: Sink?)
      modifies `dst
      ensures dst == s
    {
      dst := s;
    }

    /** Looks up the destination and writes one chunk to it. */
    method Forward(chunk: seq<Byte>, ghost sinks: set<Sink>)
      requires dst != null ==> dst in sinks
      modifies sinks`received
      ensures forall s :: s in sinks ==> s.received == old(s.received) + OnlyIf(s.open && s == dst, chunk)
    {
      var found := dst;
      if found != null {
        found.Write(chunk);
      }
    }

    /** One turn: an empty read writes nothing. */
    method Pass(turn: Turn<Sink>, ghost sinks: set<Sink>)
      requires turn.destination.Some? ==> turn.destination.value in sinks
      modifies `dst, sinks`received
      ensures forall s :: s in sinks ==>
                s.received == old(s.received) + OnlyIf(s.open && turn.destination == Some(s), turn.chunk)
    {
      if turn.chunk != [] {
        SetDest(if turn.destination.Some? then turn.destination.value else null);
        Forward(turn.chunk, sinks);
      }
    }

    method CloseDest(ghost sinks: set<Sink>)
      requires dst != null ==> dst in sinks
      modifies sinks`open
      ensures forall s :: s in sinks ==> (s.open <==> old(s.open) && s != dst)
    {
      var found := dst;
      if found != null {
        found.Close();
      }
    }

    /**
     The pump's goroutine, with the handler setting a destination before every look at it, the last of them
     being `finally`.  Every open destination gets its own part of the session and nothing else, the chunk
     that came with the read error included; then the last destination is closed, and no other.
     */
    method Loop(turns: seq<Turn<Sink>>, finally: Sink?, ghost sinks: set<Sink>)
      requires Complete(turns)
      requires forall i :: 0 <= i < |turns| && turns[i].destination.Some? ==> turns[i].destination.value in sinks
      requires finally != null ==> finally in sinks
      modifies this, sinks
      ensures forall s :: s in sinks ==> s.received == old(s.received) + OnlyIf(old(s.open), Routed(turns, |turns|, s))
      ensures forall s :: s in sinks ==> (s.open <==> old(s.open) && s != finally)
      ensures done
    {
      var i, ended := 0, false;
      while !ended
        invariant 0 <= i <= |turns| && (ended <==> i == |turns|)
        invariant forall s :: s in sinks ==>
                    s.open == old(s.open) && s.received == After(old(s.received), s.open, turns, i, s)
        decreases |turns| - i
      {
        Pass(turns[i], sinks);
        ended := turns[i].last;
        i := i + 1;
      }
      forall s | s in sinks ensures s.received == old(s.received) + OnlyIf(s.open, Routed(turns, |turns|, s)) {
        AfterIsRouted(old(s.received), s.open, turns, |turns|, s);
      }
      SetDest(finally);
      CloseDest(sinks);
      done := true;
    }
  }
}
