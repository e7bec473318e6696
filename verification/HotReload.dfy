/**
 Hot reload by modification time, step by step, against a file that may be rewritten or removed
 between any two of the loop's file operations.  The games list keeps its last good content when
 the file is missing; the banner is cleared (`clears`).  Every write takes a new modification
 time, so a write's number is its time.
 */
module HotReload {
  import opened Common

  type Time = nat

  /** A file's content, after parsing and validation. */
  datatype Content<T> = Good(value: T) | Bad

  /** Where the loop is in `reloadIfChanged`; `first` and `second` are what the two stats returned. */
  datatype Loop =
    | Idle
    | Statted(first: Time)
    | Restatted(first: Time, second: Time)
    | Loaded(first: Time, second: Time, read: Time)     // read the content written at `read`
    | Failed(first: Time, fault: bool)                  // the load gave no content: file gone, or an I/O fault

  // --------------------------------------------------- what one reload decides

  datatype StatResult = Found(time: Time) | Missing | Unreadable

  /** What is being served, and the modification time recorded for it. */
  datatype Memory<T> = Memory(current: T, recorded: Option<Time>)

  /** The file is gone: a source that clears serves `empty`. */
  function Forgotten<T>(clears: bool, empty: T, x: Memory<T>): Memory<T> {
    if clears then Memory(empty, None) else x
  }

  /** After a load: good content is served under the second stat's time, a failed load leaves the first stat's. */
  function Noted<T>(x: Memory<T>, first: Time, loaded: Option<(T, Time)>): Memory<T> {
    match loaded
    case None => x.(recorded := Some(first))
    case Some((value, second)) => Memory(value, Some(second))
  }

  /** The whole decision, from what the two stats and the read found. */
  function Reload<T>(
    clears: bool, empty: T, x: Memory<T>, stat: StatResult, restat: StatResult, read: Option<Content<T>>): Memory<T>
  {
    match stat
    case Missing => Forgotten(clears, empty, x)
    case Unreadable => x
    case Found(first) =>
      if x.recorded == Some(first) then x
      else if restat.Found? && read.Some? && read.value.Good? then
        Noted(x, first, Some((read.value.value, restat.time)))
      else Noted(x, first, None)
  }

  // ------------------------------------------------------------------ the machine

  datatype State<T> = State(
    clears: bool,
    empty: T,
    writes: seq<Content<T>>,       // everything ever written, by time
    disk: Option<Time>,            // the file now
    memory: Memory<T>,
    from: Option<Time>,            // the write that what is served came from, None for `empty`
    judged: set<Time>,             // writes whose content was read, and applied or rejected
    faulted: set<Time>,            // times recorded by a load that hit an I/O fault
    loop: Loop)

  datatype Event<T> =
    | Write(content: Content<T>) | Remove
    | Stat | StatError | Restat | ReadFile | Fault | Record

  /**
   The file's history up to the boot's read, the write whose time the boot's stat, made before it, returned,
   and whether the boot's load met an I/O fault.
   */
  datatype Start<T> = Start(writes: seq<Content<T>>, stat: Time, fault: bool)

  ghost predicate Started<T>(b: Start<T>) {
    b.writes == [] || b.stat < |b.writes|
  }

  ghost predicate GoodStart<T>(b: Start<T>) {
    Started(b) && !b.fault && b.writes != [] && b.writes[|b.writes| - 1].Good?
  }

  /** Just after boot: with good content it is active, otherwise nothing is. */
  function Boot<T>(clears: bool, empty: T, b: Start<T>): State<T> {
    var n := |b.writes|;
    if n == 0 then State(clears, empty, [], None, Memory(empty, None), None, {}, {}, Idle)
    else if b.fault then State(clears, empty, b.writes, Some(n - 1), Memory(empty, None), None, {}, {}, Idle)
    else
      match b.writes[n - 1]
      case Bad => State(clears, empty, b.writes, Some(n - 1), Memory(empty, None), None, {}, {}, Idle)
      case Good(v) =>
        State(clears, empty, b.writes, Some(n - 1), Memory(v, Some(b.stat)), Some(n - 1), {n - 1}, {}, Idle)
  }

  /** One atomic step; an event that is not enabled changes nothing. */
  function Step<T>(s: State<T>, e: Event<T>): State<T> {
    match e
    case Write(content) => s.(writes := s.writes + [content], disk := Some(|s.writes|))
    case Remove => s.(disk := None)
    case Stat =>
      if !s.loop.Idle? then s
      else if s.disk.None? then
        s.(memory := Forgotten(s.clears, s.empty, s.memory), from := if s.clears then None else s.from)
      else if s.memory.recorded == s.disk then s
      else s.(loop := Statted(s.disk.value))
    case StatError => s
    case Restat =>
      if !s.loop.Statted? then s
      else if s.disk.None? then s.(loop := Failed(s.loop.first, false))
      else s.(loop := Restatted(s.loop.first, s.disk.value))
    case ReadFile =>
      if !s.loop.Restatted? then s
      else if s.disk.None? then s.(loop := Failed(s.loop.first, false))
      else s.(loop := Loaded(s.loop.first, s.loop.second, s.disk.value))
    case Fault =>
      if s.loop.Statted? || s.loop.Restatted? then s.(loop := Failed(s.loop.first, true)) else s
    case Record =>
      match s.loop
      case Loaded(first, second, read) =>
        if read < |s.writes| && s.writes[read].Good? then
          s.(memory := Noted(s.memory, first, Some((s.writes[read].value, second))), from := Some(read),
             judged := s.judged + {read}, loop := Idle)
        else s.(memory := Noted(s.memory, first, None), judged := s.judged + {read}, loop := Idle)
      case Failed(first, fault) =>
        s.(memory := Noted(s.memory, first, None), faulted := s.faulted + (if fault then {first} else {}), loop := Idle)
      case _ => s
  }

  function Run<T>(s: State<T>, es: seq<Event<T>>): State<T> {
    if es == [] then s else Step(Run(s, es[..|es| - 1]), es[|es| - 1])
  }

  // ---------------------------------------------------------------- invariants

  ghost predicate LoopOk<T>(s: State<T>) {
    && (s.disk.Some? ==> s.disk.value + 1 == |s.writes|)
    && match s.loop
       case Idle => true
       case Statted(first) => first < |s.writes|
       case Restatted(first, second) => first <= second < |s.writes|
       case Loaded(first, second, read) => first <= second <= read < |s.writes|
       case Failed(first, fault) => first < |s.writes| && (s.disk == Some(first) ==> fault)
  }

  /** What is served is the content of one judged good write; the games list serves the newest such write. */
  ghost predicate ServedOk<T>(s: State<T>) {
    && (s.from.None? ==> s.memory.current == s.empty)
    && (s.from.Some? ==>
          s.from.value in s.judged && s.from.value < |s.writes| && s.writes[s.from.value] == Good(s.memory.current))
    && (forall t :: t in s.judged ==> t < |s.writes| && (s.loop.Loaded? ==> t <= s.loop.read))
    && (!s.clears ==> forall t :: t in s.judged && s.writes[t].Good? ==> s.from.Some? && t <= s.from.value)
    && (forall t :: s.disk == Some(t) && t in s.judged && s.writes[t].Good? ==> s.from == Some(t))
  }

  /** If the recorded time is the file's, the content was judged, unless the load that recorded it failed. */
  ghost predicate NotPinned<T>(s: State<T>) {
    s.disk.Some? && s.memory.recorded == s.disk ==> s.disk.value in s.judged || s.disk.value in s.faulted
  }

  ghost predicate Inv<T>(s: State<T>) {
    LoopOk(s) && ServedOk(s) && NotPinned(s) && (s.memory.recorded.Some? ==> s.memory.recorded.value < |s.writes|)
  }

  lemma StepKeepsLoop<T>(s: State<T>, e: Event<T>)
    requires LoopOk(s)
    ensures LoopOk(Step(s, e))
  {}

  lemma StepKeepsServed<T>(s: State<T>, e: Event<T>)
    requires LoopOk(s) && ServedOk(s)
    ensures ServedOk(Step(s, e))
  {
    match e case Write(_) => case Record => case _ =>
  }

  lemma StepKeepsNotPinned<T>(s: State<T>, e: Event<T>)
    requires Inv(s)
    ensures var t := Step(s, e);
            NotPinned(t) && (t.memory.recorded.Some? ==> t.memory.recorded.value < |t.writes|)
  {}

  lemma {:induction false} EveryRunKeepsInv<T>(clears: bool, empty: T, b: Start<T>, es: seq<Event<T>>)
    requires Started(b)
    ensures Inv(Run(Boot(clears, empty, b), es))
  {
    if es != [] {
      var s, e := Run(Boot(clears, empty, b), es[..|es| - 1]), es[|es| - 1];
      EveryRunKeepsInv(clears, empty, b, es[..|es| - 1]);
      StepKeepsLoop(s, e);
      StepKeepsServed(s, e);
      StepKeepsNotPinned(s, e);
    }
  }

  lemma {:induction false} FaultFreeRunsStayClean<T>(s: State<T>, es: seq<Event<T>>)
    requires s.faulted == {} && s.loop == Idle && Fault !in es
    ensures Run(s, es).faulted == {} && (Run(s, es).loop.Failed? ==> !Run(s, es).loop.fault)
  {
    if es != [] {
      FaultFreeRunsStayClean(s, es[..|es| - 1]);
    }
  }

  /**
   At boot the file's content is served, under the time of the stat made before its read, when it was read and
   good; otherwise nothing is, and no time is recorded.
   */
  lemma BootIsExact<T>(clears: bool, empty: T, b: Start<T>)
    requires Started(b)
    ensures var s, n := Boot(clears, empty, b), |b.writes|;
            && s.loop == Idle && s.writes == b.writes && s.disk == (if n == 0 then None else Some(n - 1))
            && s.memory == if n > 0 && !b.fault && b.writes[n - 1].Good?
                           then Memory(b.writes[n - 1].value, Some(b.stat)) else Memory(empty, None)
  {}

  // ------------------------------------------------------------------ results

  /**
   Without I/O faults, whenever the recorded time is the file's, its content has been judged: a good one
   is being served.  Rewrites between any two file operations never leave a stale list recorded as current.
   */
  lemma RecordedMeansJudged<T>(clears: bool, empty: T, b: Start<T>, es: seq<Event<T>>)
    requires Started(b) && Fault !in es
    ensures var s := Run(Boot(clears, empty, b), es);
            s.disk.Some? && s.memory.recorded == s.disk ==>
              && s.disk.value in s.judged && s.disk.value < |s.writes|
              && (s.writes[s.disk.value].Good? ==> s.memory.current == s.writes[s.disk.value].value)
  {
    EveryRunKeepsInv(clears, empty, b, es);
    FaultFreeRunsStayClean(Boot(clears, empty, b), es);
  }

  /** The games list is always the newest good content read; bad content is never served and displaces nothing. */
  lemma ServesNewestGoodRead<T>(empty: T, b: Start<T>, es: seq<Event<T>>, t: Time)
    requires GoodStart(b) && t in Run(Boot(false, empty, b), es).judged
    ensures var s := Run(Boot(false, empty, b), es);
            && s.from.Some? && s.from.value < |s.writes| && s.writes[s.from.value] == Good(s.memory.current)
            && t < |s.writes| && (s.writes[t].Good? ==> t <= s.from.value)
  {
    EveryRunKeepsInv(false, empty, b, es);
    GoodBootServes(empty, b, es);
  }

  lemma {:induction false} GoodBootServes<T>(empty: T, b: Start<T>, es: seq<Event<T>>)
    requires GoodStart(b)
    ensures Run(Boot(false, empty, b), es).from.Some? && !Run(Boot(false, empty, b), es).clears
  {
    if es != [] {
      GoodBootServes(empty, b, es[..|es| - 1]);
    }
  }

  /** One cycle of the loop with nothing else touching the file. */
  function Cycle<T>(s: State<T>, fault: bool): State<T> {
    if fault then Step(Step(Step(s, Stat), Fault), Record)
    else Step(Step(Step(Step(s, Stat), Restat), ReadFile), Record)
  }

  /**
   An undisturbed cycle always records the file's time, and leaves its content judged exactly when it
   already was, or when there was a new time to load and the load met no I/O fault.
   */
  lemma CycleIsExact<T>(s: State<T>, fault: bool)
    requires Inv(s) && s.loop == Idle && s.disk.Some?
    ensures var t := Cycle(s, fault);
            && t.loop == Idle && t.disk == s.disk && t.memory.recorded == t.disk
            && (t.disk.value in t.judged <==> s.disk.value in s.judged || (s.memory.recorded != s.disk && !fault))
            && (t.disk.value in t.judged && s.writes[s.disk.value].Good? ==>
                  t.memory.current == s.writes[s.disk.value].value)
            && (s.writes[s.disk.value].Bad? || (fault && s.disk.value !in s.judged) ==>
                  t.memory.current == s.memory.current)
  {}

  /** With the file gone, one cycle clears the banner and leaves the games list alone. */
  lemma MissingFile<T>(s: State<T>, fault: bool)
    requires Inv(s) && s.loop == Idle && s.disk.None?
    ensures var t := Cycle(s, fault);
            && t.loop == Idle
            && t.memory == (if s.clears then Memory(s.empty, None) else s.memory)
  {}

  /** One cycle after another, each meeting an I/O fault in its load or not. */
  function Cycles<T>(s: State<T>, faults: seq<bool>): State<T>
    decreases |faults|
  {
    if faults == [] then s else Cycles(Cycle(s, faults[0]), faults[1..])
  }

  lemma RecordedCycleIsIdle<T>(s: State<T>, fault: bool)
    requires s.loop == Idle && s.disk.Some? && s.memory.recorded == s.disk
    ensures Cycle(s, fault) == s
  {
    assert Step(s, Stat) == s && Step(s, Restat) == s && Step(s, ReadFile) == s && Step(s, Fault) == s;
    assert Step(s, Record) == s;
  }

  /** Once the file's time is recorded, any number of cycles change nothing. */
  lemma {:induction false} RecordedIsFixpoint<T>(s: State<T>, faults: seq<bool>)
    requires s.loop == Idle && s.disk.Some? && s.memory.recorded == s.disk
    ensures Cycles(s, faults) == s
    decreases |faults|
  {
    if faults != [] {
      RecordedCycleIsIdle(s, faults[0]);
      RecordedIsFixpoint(s, faults[1..]);
    }
  }

  /**
   The fault matters: after one I/O fault in the load of a good new list, the old list is served through
   any number of cycles, because the new list's time is already recorded.
   */
  lemma FaultPinsStaleList<T>(empty: T, previous: T, latest: T, faults: seq<bool>)
    ensures var rewritten := Step(Boot(false, empty, Start([Good(previous)], 0, false)), Write(Good(latest)));
            var s := Cycles(Cycle(rewritten, true), faults);
            s.memory.current == previous && s.disk == Some(1) && |s.writes| == 2 && s.writes[1] == Good(latest)
  {
    var s := Step(Boot(false, empty, Start([Good(previous)], 0, false)), Write(Good(latest)));
    assert Inv(s) && s.disk == Some(1);
    CycleIsExact(s, true);
    assert s.writes == [Good(previous), Good(latest)];
    RecordedIsFixpoint(Cycle(s, true), faults);
  }

  // -------------------------------------------- the steps amount to the decision

  function StatOf(disk: Option<Time>): StatResult {
    if disk.Some? then Found(disk.value) else Missing
  }

  /** What a read finds. */
  function ReadOf<T>(s: State<T>): Option<Content<T>> {
    if s.disk.Some? && s.disk.value < |s.writes| then Some(s.writes[s.disk.value]) else None
  }

  /** A write makes a new content the file's, under a new time; after a removal there is no file. */
  lemma FileEventsAreExact<T>(s: State<T>, content: Content<T>)
    ensures var t := Step(s, Write(content)); t.writes == s.writes + [content] && t.disk == Some(|s.writes|)
    ensures Step(s, Remove).writes == s.writes && Step(s, Remove).disk == None
  {}

  ghost predicate FileEvents<T(!new)>(es: seq<Event<T>>) {
    forall e :: e in es ==> e.Write? || e.Remove?
  }

  /** Others touch only the file, and what was written stays written. */
  lemma {:induction false} FileEventsTouchTheFile<T(!new)>(s: State<T>, es: seq<Event<T>>)
    requires FileEvents(es) && LoopOk(s)
    ensures Run(s, es) == s.(writes := Run(s, es).writes, disk := Run(s, es).disk)
    ensures LoopOk(Run(s, es)) && s.writes <= Run(s, es).writes
  {
    if es != [] {
      FileEventsTouchTheFile(s, es[..|es| - 1]);
      StepKeepsLoop(Run(s, es[..|es| - 1]), es[|es| - 1]);
    }
  }

  /** The rest of a cycle after its first stat, with file events between the steps. */
  function Rest<T>(atRestat: State<T>, statFault: bool, b: seq<Event<T>>, readFault: bool, c: seq<Event<T>>): State<T> {
    Step(Run(Step(AtRead(atRestat, statFault, b), if readFault then Fault else ReadFile), c), Record)
  }

  function AtRead<T>(atRestat: State<T>, statFault: bool, b: seq<Event<T>>): State<T> {
    Run(Step(atRestat, if statFault then Fault else Restat), b)
  }

  /** What a stat finds, and what the read does. */
  function Restated<T>(s: State<T>, fault: bool): StatResult {
    if fault then Unreadable else StatOf(s.disk)
  }

  function Read<T>(s: State<T>, fault: bool): Option<Content<T>> {
    if fault then None else ReadOf(s)
  }

  lemma ReadIsNoted<T(!new)>(s: State<T>, fault: bool, c: seq<Event<T>>)
    requires LoopOk(s) && s.loop.Restatted? && FileEvents(c)
    ensures var end, content := Step(Run(Step(s, if fault then Fault else ReadFile), c), Record), Read(s, fault);
            && end.loop == Idle
            && end.memory == Noted(s.memory, s.loop.first, if content.Some? && content.value.Good?
                                                           then Some((content.value.value, s.loop.second)) else None)
  {
    var read := Step(s, if fault then Fault else ReadFile);
    StepKeepsLoop(s, if fault then Fault else ReadFile);
    FileEventsTouchTheFile(read, c);
  }

  lemma FailureIsNoted<T(!new)>(s: State<T>, fault: bool, c: seq<Event<T>>)
    requires LoopOk(s) && s.loop.Failed? && FileEvents(c)
    ensures var end := Step(Run(Step(s, if fault then Fault else ReadFile), c), Record);
            end.loop == Idle && end.memory == Noted(s.memory, s.loop.first, None)
  {
    FileEventsTouchTheFile(s, c);
  }

  lemma RestIsNoted<T(!new)>(s: State<T>, statFault: bool, b: seq<Event<T>>, readFault: bool, c: seq<Event<T>>)
    requires LoopOk(s) && s.loop.Statted? && FileEvents(b) && FileEvents(c)
    ensures var end := Rest(s, statFault, b, readFault, c);
            var restat, content := Restated(s, statFault), Read(AtRead(s, statFault, b), readFault);
            && end.loop == Idle
            && end.memory == Noted(s.memory, s.loop.first, if restat.Found? && content.Some? && content.value.Good?
                                                           then Some((content.value.value, restat.time)) else None)
  {
    var restated := Step(s, if statFault then Fault else Restat);
    StepKeepsLoop(s, if statFault then Fault else Restat);
    FileEventsTouchTheFile(restated, b);
    if restated.loop.Restatted? {
      ReadIsNoted(Run(restated, b), readFault, c);
    } else {
      FailureIsNoted(Run(restated, b), readFault, c);
    }
  }

  lemma RestOfNothing<T(!new)>(s: State<T>, statFault: bool, b: seq<Event<T>>, readFault: bool, c: seq<Event<T>>)
    requires LoopOk(s) && s.loop == Idle && FileEvents(b) && FileEvents(c)
    ensures Rest(s, statFault, b, readFault, c).loop == Idle && Rest(s, statFault, b, readFault, c).memory == s.memory
  {
    FileEventsTouchTheFile(s, b);
    FileEventsTouchTheFile(Run(s, b), c);
  }

  /**
   One cycle, with the file rewritten and removed at will between its steps and with either stat or the read
   meeting an I/O fault or not, does what the decision says about what the steps found.
   */
  lemma CycleIsReload<T(!new)>(
    s: State<T>, unread: bool, a: seq<Event<T>>, statFault: bool, b: seq<Event<T>>, readFault: bool, c: seq<Event<T>>)
    requires LoopOk(s) && s.loop == Idle && FileEvents(a) && FileEvents(b) && FileEvents(c)
    ensures var atRestat := Run(Step(s, if unread then StatError else Stat), a);
            var end := Rest(atRestat, statFault, b, readFault, c);
            && end.loop == Idle
            && end.memory == Reload(s.clears, s.empty, s.memory, Restated(s, unread), Restated(atRestat, statFault),
                                    Read(AtRead(atRestat, statFault, b), readFault))
  {
    var statted := Step(s, if unread then StatError else Stat);
    StepKeepsLoop(s, if unread then StatError else Stat);
    FileEventsTouchTheFile(statted, a);
    if statted.loop.Statted? {
      RestIsNoted(Run(statted, a), statFault, b, readFault, c);
    } else {
      RestOfNothing(Run(statted, a), statFault, b, readFault, c);
    }
  }

  // ------------------------------------------------------------- the Go object

  /** `empty` is what a source that clears serves while its file is gone. */
  class Source<T(==)> {
    const clears: bool
    const empty: T
    var current: T
    var recorded: Option<Time>

    constructor (clears: bool, empty: T, current: T, recorded: Option<Time>)
      ensures this.clears == clears && this.empty == empty && this.current == current && this.recorded == recorded
    {
      this.clears, this.empty, this.current, this.recorded := clears, empty, current, recorded;
    }

    ghost function View(): Memory<T> reads this { Memory(current, recorded) }

    /** One reload check; the arguments are what the two stats and the read find when they are made. */
    method ReloadIfChanged(stat: StatResult, restat: StatResult, read: Option<Content<T>>) returns (notify: bool)
      modifies this
      ensures View() == Reload(clears, empty, old(View()), stat, restat, read)
      ensures stat.Unreadable? || (stat.Found? && old(recorded) == Some(stat.time)) ==>
                !notify && View() == old(View())
      ensures stat.Missing? ==> View() == if clears then Memory(empty, None) else old(View())
      ensures stat.Found? && old(recorded) != Some(stat.time) ==>
                View() == if restat.Found? && read.Some? && read.value.Good?
                          then Memory(read.value.value, Some(restat.time)) else Memory(old(current), Some(stat.time))
      ensures clears ==> (notify <==> current != old(current) || (stat.Missing? && recorded != old(recorded)))
      ensures !clears ==> (notify <==> stat.Found? && Some(stat.time) != old(recorded)
                                       && restat.Found? && read.Some? && read.value.Good?)
    {
      if stat.Missing? {
        if !clears || (current == empty && recorded == None) {
          return false;
        }
        current, recorded := empty, None;
        return true;
      }
      if stat.Unreadable? || recorded == Some(stat.time) {
        return false;
      }
      recorded := Some(stat.time);
      if !restat.Found? || read.None? || read.value.Bad? {
        return false;
      }
      recorded := Some(restat.time);
      var changed := current != read.value.value;
      current := read.value.value;
      return changed || !clears;
    }
  }
}
