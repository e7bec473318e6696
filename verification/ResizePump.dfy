/**
 The window-change pump, step by step: its loop, the handler that attaches and detaches consumers,
 and the consumers that receive.  A resize is named by its arrival number, so "newer" is "greater".
 */
module ResizePump {
  import opened Common

  type Resize = nat
  type ConsumerId = nat

  // ------------------------------------------- what the channel operations and critical sections do

  /** A channel of capacity one. */
  datatype Chan<W> = Chan(item: Option<W>, closed: bool)

  /** A consumer's channel as it is made: primed with the latest size, or closed when the session is over. */
  function Opened<W>(done: bool, latest: Option<W>): Chan<W> {
    if done then Chan(None, true) else Chan(latest, false)
  }

  /** A send that does not block: a full channel keeps what it has. */
  function Offered<W>(ch: Chan<W>, w: W): Chan<W> {
    if ch.item.None? then ch.(item := Some(w)) else ch
  }

  function Emptied<W>(ch: Chan<W>): Chan<W> {
    ch.(item := None)
  }

  function Shut<W>(ch: Chan<W>): Chan<W> {
    ch.(closed := true)
  }

  /** What the pump's lock protects: the attached consumer, and the latest size if there is one. */
  datatype Hub<C, W> = Hub(dst: Option<C>, latest: Option<W>)

  function Recorded<C, W>(h: Hub<C, W>, w: W): Hub<C, W> {
    h.(latest := Some(w))
  }

  function Released<C, W>(h: Hub<C, W>): Hub<C, W> {
    h.(dst := None)
  }

  function Attached<C, W>(h: Hub<C, W>, done: bool, c: C): Hub<C, W> {
    if done then h else h.(dst := Some(c))
  }

  // ------------------------------------------------------------------ the machine

  /** When a consumer was attached: while the loop served, after its last look at `dst`, or after `done`. */
  datatype Phase = Serving | Window | After

  /** A consumer: its one-slot channel, what it has received, and when and with what it was attached. */
  datatype Consumer = Consumer(
    chan: Chan<Resize>, received: seq<Resize>, primedWith: Option<Resize>, phase: Phase)
  {
    /** Everything delivered so far, in order. */
    function Flow(): seq<Resize> { received + if chan.item.Some? then [chan.item.value] else [] }
  }

  /** Where the pump's goroutine is. */
  datatype Loop =
    | Waiting                                                   // blocked on the source
    | Arrived(w: Resize)                                        // read one, not yet recorded
    | Sending(to: ConsumerId, w: Resize, failed: nat)           // about to try the send
    | Draining(to: ConsumerId, w: Resize, failed: nat)          // the send failed; about to drop the stale item
    | Releasing(last: Option<ConsumerId>)                       // source ended; about to close the consumer
    | Exiting                                                   // about to close `done`
    | Finished

  datatype State = State(
    arrived: nat,                     // resizes read from the source
    hub: Hub<ConsumerId, Resize>,
    loop: Loop,
    consumers: seq<Consumer>,
    owed: Option<ConsumerId>,         // the consumer attached when the loop took its last look
    mostTries: nat,                   // the most send attempts any delivery has used
    panicked: bool)                   // a send on, or a close of, a closed channel

  const INIT := State(0, Hub(None, None), Waiting, [], None, 0, false)

  datatype Event =
    | Arrive | Record | TrySend | Drain | SourceEnds | CloseConsumer | CloseDone
    | Attach | Detach
    | Receive(c: ConsumerId)

  function PhaseOf(loop: Loop): Phase {
    match loop
    case Releasing(_) => Window
    case Exiting => Window
    case Finished => After
    case _ => Serving
  }

  /** One atomic step; an event that is not enabled changes nothing. */
  function Step(s: State, e: Event): State {
    match e
    case Arrive =>
      if s.loop.Waiting? then s.(loop := Arrived(s.arrived), arrived := s.arrived + 1) else s
    case Record =>
      if !s.loop.Arrived? then s
      else s.(hub := Recorded(s.hub, s.loop.w),
              loop := if s.hub.dst.Some? then Sending(s.hub.dst.value, s.loop.w, 0) else Waiting)
    case TrySend =>
      if !s.loop.Sending? || s.loop.to >= |s.consumers| then s
      else
        var Sending(to, w, failed) := s.loop;
        var c := s.consumers[to];
        if c.chan.closed then s.(panicked := true)
        else if c.chan.item.Some? then s.(loop := Draining(to, w, failed + 1))
        else
          s.(consumers := s.consumers[to := c.(chan := Offered(c.chan, w))], loop := Waiting,
             mostTries := if failed + 1 > s.mostTries then failed + 1 else s.mostTries)
    case Drain =>
      if !s.loop.Draining? || s.loop.to >= |s.consumers| then s
      else
        var Draining(to, w, failed) := s.loop;
        s.(consumers := s.consumers[to := s.consumers[to].(chan := Emptied(s.consumers[to].chan))],
           loop := Sending(to, w, failed))
    case SourceEnds =>
      if s.loop.Waiting? then s.(loop := Releasing(s.hub.dst), owed := s.hub.dst, hub := Released(s.hub)) else s
    case CloseConsumer =>
      if !s.loop.Releasing? then s
      else if s.loop.last.None? || s.loop.last.value >= |s.consumers| then s.(loop := Exiting)
      else
        var c := s.consumers[s.loop.last.value];
        if c.chan.closed then s.(panicked := true)
        else s.(consumers := s.consumers[s.loop.last.value := c.(chan := Shut(c.chan))], loop := Exiting)
    case CloseDone =>
      if s.loop.Exiting? then s.(loop := Finished) else s
    case Attach =>
      var done := s.loop.Finished?;
      s.(hub := Attached(s.hub, done, |s.consumers|),
         consumers := s.consumers + [
           Consumer(Opened(done, s.hub.latest), [], if done then None else s.hub.latest, PhaseOf(s.loop))])
    case Detach => s.(hub := Released(s.hub))
    case Receive(c) =>
      if c >= |s.consumers| || s.consumers[c].chan.item.None? then s
      else s.(consumers := s.consumers[c := s.consumers[c].(
        chan := Emptied(s.consumers[c].chan), received := s.consumers[c].received + [s.consumers[c].chan.item.value])])
  }

  function Exec(es: seq<Event>): State {
    if es == [] then INIT else Step(Exec(es[..|es| - 1]), es[|es| - 1])
  }

  // ---------------------------------------------------------------- invariants

  /** The resize on its way to `c`, if the loop has a delivery to it under way. */
  function Delivering(s: State, c: ConsumerId): Option<Resize> {
    if (s.loop.Sending? || s.loop.Draining?) && s.loop.to == c then Some(s.loop.w) else None
  }

  ghost predicate Increasing(flow: seq<Resize>) {
    forall i, j :: 0 <= i < j < |flow| ==> flow[i] < flow[j]
  }

  /** In order, no older than the priming value, no newer than `latest`, and older than what is on its way. */
  ghost predicate Orderly(flow: seq<Resize>, latest: Option<Resize>, coming: Option<Resize>, primed: Option<Resize>) {
    && Increasing(flow)
    && (flow != [] ==> latest.Some? && forall i :: 0 <= i < |flow| ==> flow[i] <= latest.value)
    && (coming.Some? ==> latest == coming && forall i :: 0 <= i < |flow| ==> flow[i] < coming.value)
    && (primed.Some? ==> latest.Some? && primed.value <= latest.value)
    && (primed.Some? ==> forall i :: 0 <= i < |flow| ==> flow[i] >= primed.value)
  }

  ghost predicate FlowOk(s: State, c: ConsumerId)
    requires c < |s.consumers|
  {
    Orderly(s.consumers[c].Flow(), s.hub.latest, Delivering(s, c), s.consumers[c].primedWith)
  }

  /** The attached consumer's last item is the newest resize, unless it is being delivered right now. */
  ghost predicate UpToDate(s: State) {
    s.hub.dst.Some? && s.hub.dst.value < |s.consumers| && s.hub.latest.Some?
    && Delivering(s, s.hub.dst.value) == None ==>
      var flow := s.consumers[s.hub.dst.value].Flow();
      flow != [] && flow[|flow| - 1] == s.hub.latest.value
  }

  ghost predicate LoopOk(s: State) {
    match s.loop
    case Waiting => s.hub.latest == if s.arrived == 0 then None else Some(s.arrived - 1)
    case Arrived(w) => w + 1 == s.arrived && s.hub.latest == if w == 0 then None else Some(w - 1)
    case Sending(to, w, failed) =>
      && s.hub.latest == Some(w) && w + 1 == s.arrived && to < |s.consumers| && !s.consumers[to].chan.closed
      && failed <= 1 && (failed == 1 ==> s.consumers[to].chan.item == None)
    case Draining(to, w, failed) =>
      s.hub.latest == Some(w) && w + 1 == s.arrived && to < |s.consumers| && !s.consumers[to].chan.closed && failed == 1
    case Releasing(last) => last == s.owed
    case Exiting => true
    case Finished => true
  }

  /** Exactly when a consumer's channel is closed. */
  ghost predicate ChannelOk(s: State, c: ConsumerId)
    requires c < |s.consumers|
  {
    && (s.consumers[c].chan.closed <==>
        s.consumers[c].phase == After || ((s.loop.Exiting? || s.loop.Finished?) && s.owed == Some(c)))
    && (PhaseOf(s.loop) == Serving ==> s.consumers[c].phase == Serving)
  }

  /** The attached consumer and the one owed a close are both open until the loop closes the latter. */
  ghost predicate AttachedOk(s: State) {
    && (s.hub.dst.Some? ==> s.hub.dst.value < |s.consumers| && !s.consumers[s.hub.dst.value].chan.closed)
    && (s.owed.Some? ==> s.owed.value < |s.consumers| && s.consumers[s.owed.value].phase == Serving)
    && (PhaseOf(s.loop) == Serving ==> s.owed == None)
    && (PhaseOf(s.loop) != Serving && s.hub.dst.Some? ==> s.consumers[s.hub.dst.value].phase == Window)
  }

  ghost predicate ClosedOk(s: State) {
    AttachedOk(s) && forall c :: 0 <= c < |s.consumers| ==> ChannelOk(s, c)
  }

  ghost predicate FlowsOk(s: State) {
    forall c :: 0 <= c < |s.consumers| ==> FlowOk(s, c)
  }

  ghost predicate Inv(s: State) {
    && !s.panicked && s.mostTries <= 2
    && LoopOk(s) && ClosedOk(s) && UpToDate(s) && FlowsOk(s)
  }

  /** From s to t consumer c's flow stays, gains the resize being delivered, or loses its stale last item. */
  ghost predicate FlowStep(s: State, t: State, c: ConsumerId)
    requires c < |s.consumers| && c < |t.consumers|
  {
    var flow, flow' := s.consumers[c].Flow(), t.consumers[c].Flow();
    || (flow' == flow && t.hub.latest == s.hub.latest && Delivering(t, c) == Delivering(s, c))
    || (s.loop.Arrived? && flow' == flow && t.hub.latest == Some(s.loop.w)
        && (Delivering(t, c) == None || Delivering(t, c) == t.hub.latest))
    || (Delivering(s, c).Some? && flow' == flow + [Delivering(s, c).value] && t.hub.latest == s.hub.latest
        && Delivering(t, c) == None)
    || (Delivering(s, c).Some? && |flow'| <= |flow| && flow' == flow[..|flow'|] && t.hub.latest == s.hub.latest
        && Delivering(t, c) == Delivering(s, c))
  }

  lemma SendFlowStep(s: State, c: ConsumerId)
    requires c < |s.consumers|
    ensures FlowStep(s, Step(s, TrySend), c)
  {}

  lemma DrainFlowStep(s: State, c: ConsumerId)
    requires c < |s.consumers|
    ensures FlowStep(s, Step(s, Drain), c)
  {
    var flow' := Step(s, Drain).consumers[c].Flow();
    assert flow' == s.consumers[c].Flow()[..|flow'|];
  }

  lemma ReceiveFlowStep(s: State, c: ConsumerId, d: ConsumerId)
    requires c < |s.consumers|
    ensures FlowStep(s, Step(s, Receive(d)), c)
  {
    assert Step(s, Receive(d)).consumers[c].Flow() == s.consumers[c].Flow();
  }

  lemma FlowSteps(s: State, e: Event, c: ConsumerId)
    requires c < |s.consumers|
    ensures c < |Step(s, e).consumers| && FlowStep(s, Step(s, e), c)
    ensures Step(s, e).consumers[c].primedWith == s.consumers[c].primedWith
    ensures Step(s, e).consumers[c].phase == s.consumers[c].phase
  {
    match e
    case TrySend => SendFlowStep(s, c);
    case Drain => DrainFlowStep(s, c);
    case Receive(d) => ReceiveFlowStep(s, c, d);
    case _ =>
  }

  lemma OrderlyPrefix(flow: seq<Resize>, n: nat, latest: Option<Resize>, coming: Option<Resize>, primed: Option<Resize>)
    requires Orderly(flow, latest, coming, primed) && n <= |flow|
    ensures Orderly(flow[..n], latest, coming, primed)
  {
    assert forall i :: 0 <= i < n ==> flow[..n][i] == flow[i];
  }

  lemma OrderlyDelivered(flow: seq<Resize>, w: Resize, primed: Option<Resize>)
    requires Orderly(flow, Some(w), Some(w), primed)
    ensures Orderly(flow + [w], Some(w), None, primed)
  {
    assert forall i :: 0 <= i < |flow| ==> (flow + [w])[i] == flow[i];
  }

  lemma OrderlyRecorded(flow: seq<Resize>, w: Resize, latest: Option<Resize>, primed: Option<Resize>)
    requires Orderly(flow, latest, None, primed) && (latest.Some? ==> latest.value < w)
    ensures Orderly(flow, Some(w), Some(w), primed) && Orderly(flow, Some(w), None, primed)
  {}

  lemma StepKeepsFlow(s: State, e: Event, c: ConsumerId)
    requires LoopOk(s) && c < |s.consumers| && FlowOk(s, c)
    ensures c < |Step(s, e).consumers| && FlowOk(Step(s, e), c)
  {
    FlowSteps(s, e, c);
    var t := Step(s, e);
    var flow, flow', primed := s.consumers[c].Flow(), t.consumers[c].Flow(), s.consumers[c].primedWith;
    if Delivering(s, c).Some? && Delivering(t, c) == None {
      OrderlyDelivered(flow, Delivering(s, c).value, primed);
    } else if Delivering(s, c).Some? && |flow'| <= |flow| {
      OrderlyPrefix(flow, |flow'|, s.hub.latest, Delivering(s, c), primed);
      assert flow[..|flow|] == flow;
    } else if s.loop.Arrived? {
      OrderlyRecorded(flow, s.loop.w, s.hub.latest, primed);
    }
  }

  lemma NewConsumerFlows(s: State, e: Event, c: ConsumerId)
    requires LoopOk(s) && |s.consumers| <= c < |Step(s, e).consumers|
    ensures FlowOk(Step(s, e), c)
  {
    assert e.Attach?;
  }

  lemma StepKeepsFlows(s: State, e: Event)
    requires LoopOk(s) && FlowsOk(s)
    ensures FlowsOk(Step(s, e))
  {
    forall c | 0 <= c < |Step(s, e).consumers| ensures FlowOk(Step(s, e), c) {
      if c < |s.consumers| {
        StepKeepsFlow(s, e, c);
      } else {
        NewConsumerFlows(s, e, c);
      }
    }
  }

  lemma StepKeepsLoopOk(s: State, e: Event)
    requires LoopOk(s) && ClosedOk(s) && !s.panicked && s.mostTries <= 2
    ensures LoopOk(Step(s, e)) && !Step(s, e).panicked && Step(s, e).mostTries <= 2
  {
    assert s.owed.Some? ==> ChannelOk(s, s.owed.value);
  }

  lemma StepKeepsAttached(s: State, e: Event)
    requires LoopOk(s) && ClosedOk(s)
    ensures AttachedOk(Step(s, e))
  {
    assert s.owed.Some? ==> ChannelOk(s, s.owed.value);
    assert s.hub.dst.Some? ==> ChannelOk(s, s.hub.dst.value);
  }

  lemma StepKeepsChannel(s: State, e: Event, c: ConsumerId)
    requires LoopOk(s) && ClosedOk(s) && c < |Step(s, e).consumers|
    ensures ChannelOk(Step(s, e), c)
  {
    assert c < |s.consumers| ==> ChannelOk(s, c);
  }

  lemma StepKeepsClosedOk(s: State, e: Event)
    requires LoopOk(s) && ClosedOk(s)
    ensures ClosedOk(Step(s, e))
  {
    StepKeepsAttached(s, e);
    forall c | 0 <= c < |Step(s, e).consumers| ensures ChannelOk(Step(s, e), c) {
      StepKeepsChannel(s, e, c);
    }
  }

  lemma AttachKeepsUpToDate(s: State)
    requires LoopOk(s) && AttachedOk(s) && UpToDate(s)
    ensures UpToDate(Step(s, Attach))
  {}

  lemma SendKeepsUpToDate(s: State)
    requires LoopOk(s) && AttachedOk(s) && UpToDate(s)
    ensures UpToDate(Step(s, TrySend))
  {
    if s.hub.dst.Some? {
      SendFlowStep(s, s.hub.dst.value);
    }
  }

  lemma StepKeepsUpToDate(s: State, e: Event)
    requires LoopOk(s) && AttachedOk(s) && UpToDate(s)
    ensures UpToDate(Step(s, e))
  {
    match e
    case Attach => AttachKeepsUpToDate(s);
    case TrySend => SendKeepsUpToDate(s);
    case Drain => if s.hub.dst.Some? { DrainFlowStep(s, s.hub.dst.value); }
    case Receive(d) => if s.hub.dst.Some? { ReceiveFlowStep(s, s.hub.dst.value, d); }
    case _ =>
  }

  lemma StepKeepsInv(s: State, e: Event)
    requires Inv(s)
    ensures Inv(Step(s, e))
  {
    StepKeepsLoopOk(s, e);
    StepKeepsClosedOk(s, e);
    StepKeepsUpToDate(s, e);
    StepKeepsFlows(s, e);
  }

  lemma {:induction false} EveryScheduleKeepsInv(es: seq<Event>)
    ensures Inv(Exec(es))
  {
    if es != [] {
      EveryScheduleKeepsInv(es[..|es| - 1]);
      StepKeepsInv(Exec(es[..|es| - 1]), es[|es| - 1]);
    }
  }

  lemma ExecSnoc(es: seq<Event>, e: Event)
    ensures Exec(es + [e]) == Step(Exec(es), e)
  {
    assert (es + [e])[..|es + [e]| - 1] == es;
  }

  // ------------------------------------------------------- what is attached, and when

  /** Consumer c was attached, and neither detached, replaced nor let go at the session's end since. */
  ghost predicate AttachedBy(es: seq<Event>, c: ConsumerId) {
    es != []
    && var before, s := es[..|es| - 1], Exec(es[..|es| - 1]);
       match es[|es| - 1]
       case Attach => if s.loop.Finished? then AttachedBy(before, c) else c == |s.consumers|
       case Detach => false
       case SourceEnds => !s.loop.Waiting? && AttachedBy(before, c)
       case _ => AttachedBy(before, c)
  }

  /** The attached consumer is the one the schedule attached last, until it is detached or the session ends. */
  lemma {:induction false} AttachmentIsItsHistory(es: seq<Event>, c: ConsumerId)
    ensures Exec(es).hub.dst == Some(c) <==> AttachedBy(es, c)
  {
    if es != [] {
      AttachmentIsItsHistory(es[..|es| - 1], c);
    }
  }

  /** Attaching makes one consumer more: holding the latest size and attached, or closed once the pump is done. */
  lemma AttachingAttaches(es: seq<Event>)
    ensures var s, t := Exec(es), Exec(es + [Attach]);
            && |t.consumers| == |s.consumers| + 1 && t.consumers[..|s.consumers|] == s.consumers
            && var made := t.consumers[|s.consumers|];
               && made.received == [] && made.primedWith == made.chan.item && (made.chan.closed <==> s.loop.Finished?)
               && (!s.loop.Finished? ==> t.hub.dst == Some(|s.consumers|) && made.chan.item == s.hub.latest)
  {
    ExecSnoc(es, Attach);
  }

  /** A consumer that receives takes the item it holds, once. */
  lemma ReceivingTakes(es: seq<Event>, c: ConsumerId)
    requires c < |Exec(es).consumers| && Exec(es).consumers[c].chan.item.Some?
    ensures var s, t := Exec(es), Exec(es + [Receive(c)]);
            && |t.consumers| == |s.consumers| && t.consumers[c].chan.item == None
            && t.consumers[c].received == s.consumers[c].received + [s.consumers[c].chan.item.value]
  {
    ExecSnoc(es, Receive(c));
  }

  lemma Then(es: seq<Event>, s: State, e: Event) returns (es': seq<Event>)
    requires Exec(es) == s
    ensures Exec(es') == Step(s, e)
  {
    es' := es + [e];
    ExecSnoc(es, e);
  }

  /** The waiting loop takes the next resize and, whatever the attached consumer holds, can deliver it. */
  lemma ResizesCanBeDelivered(es: seq<Event>) returns (es': seq<Event>)
    requires Exec(es).loop.Waiting?
    ensures var s, t := Exec(es), Exec(es');
            && t.loop.Waiting? && t.arrived == s.arrived + 1 && t.hub == Hub(s.hub.dst, Some(s.arrived))
            && (s.hub.dst.Some? ==>
                  s.hub.dst.value < |t.consumers| && t.consumers[s.hub.dst.value].chan == Chan(Some(s.arrived), false))
  {
    EveryScheduleKeepsInv(es);
    var s := Exec(es);
    es' := Then(es, s, Arrive);
    es' := Then(es', Step(s, Arrive), Record);
    if s.hub.dst.Some? {
      var c := s.hub.dst.value;
      es' := Then(es', Exec(es'), TrySend);
      if s.consumers[c].chan.item.Some? {
        es' := Then(es', Exec(es'), Drain);
        es' := Then(es', Exec(es'), TrySend);
      }
    }
  }

  /** Once the source ends the pump can finish, and it closes the consumer attached then. */
  lemma SessionsCanEnd(es: seq<Event>) returns (es': seq<Event>)
    requires Exec(es).loop.Waiting?
    ensures var s, t := Exec(es), Exec(es');
            && t.loop.Finished? && t.hub == Hub(None, s.hub.latest)
            && (s.hub.dst.Some? ==> s.hub.dst.value < |t.consumers| && t.consumers[s.hub.dst.value].chan.closed)
  {
    EveryScheduleKeepsInv(es);
    es' := Then(es, Exec(es), SourceEnds);
    es' := Then(es', Exec(es'), CloseConsumer);
    es' := Then(es', Exec(es'), CloseDone);
  }

  ghost predicate Detached(s: State, c: ConsumerId) {
    c < |s.consumers| && s.hub.dst != Some(c) && Delivering(s, c) == None
  }

  lemma DetachedStep(s: State, e: Event, c: ConsumerId)
    requires Detached(s, c)
    ensures Detached(Step(s, e), c) && Step(s, e).consumers[c].Flow() == s.consumers[c].Flow()
  {
    FlowSteps(s, e, c);
  }

  /** A consumer no longer attached, with no delivery to it under way, is never given anything again. */
  lemma {:induction false} DetachedIsFrozen(es: seq<Event>, later: seq<Event>, c: ConsumerId)
    requires Detached(Exec(es), c)
    ensures Detached(Exec(es + later), c) && Exec(es + later).consumers[c].Flow() == Exec(es).consumers[c].Flow()
  {
    if later == [] {
      assert es + later == es;
    } else {
      var before, e := es + later[..|later| - 1], later[|later| - 1];
      DetachedIsFrozen(es, later[..|later| - 1], c);
      assert es + later == before + [e];
      ExecSnoc(before, e);
      DetachedStep(Exec(before), e, c);
    }
  }

  // ------------------------------------------------------------------ results

  /** No interleaving sends on or closes a closed channel, and a delivery needs at most two attempts. */
  lemma NoPanicAndTwoTries(es: seq<Event>)
    ensures !Exec(es).panicked && Exec(es).mostTries <= 2
  {
    EveryScheduleKeepsInv(es);
  }

  /** Whatever the loop is about to send on or close is open, and a second attempt finds it empty. */
  lemma NothingClosedIsTouched(es: seq<Event>)
    ensures var s := Exec(es);
            && (s.loop.Sending? ==>
                  s.loop.to < |s.consumers| && !s.consumers[s.loop.to].chan.closed
                  && (s.loop.failed > 0 ==> s.consumers[s.loop.to].chan.item == None))
            && (s.loop.Releasing? && s.loop.last.Some? ==>
                  s.loop.last.value < |s.consumers| && !s.consumers[s.loop.last.value].chan.closed)
  {
    EveryScheduleKeepsInv(es);
    var s := Exec(es);
    assert s.owed.Some? ==> ChannelOk(s, s.owed.value);
  }

  /** What a consumer has received and holds is a strictly increasing run of resizes from its priming value on. */
  lemma ConsumersSeeResizesInOrder(es: seq<Event>, c: ConsumerId)
    requires c < |Exec(es).consumers|
    ensures var flow, primed := Exec(es).consumers[c].Flow(), Exec(es).consumers[c].primedWith;
            && Increasing(flow)
            && (forall i :: 0 <= i < |flow| ==> flow[i] < Exec(es).arrived)
            && (primed.Some? ==> forall i :: 0 <= i < |flow| ==> flow[i] >= primed.value)
  {
    EveryScheduleKeepsInv(es);
    LatestHasArrived(es);
    assert FlowOk(Exec(es), c);
  }

  lemma {:induction false} LatestHasArrived(es: seq<Event>)
    ensures Exec(es).hub.latest.Some? ==> Exec(es).hub.latest.value < Exec(es).arrived
  {
    if es != [] {
      LatestHasArrived(es[..|es| - 1]);
      EveryScheduleKeepsInv(es[..|es| - 1]);
      LatestStep(Exec(es[..|es| - 1]), es[|es| - 1]);
    }
  }

  lemma LatestStep(s: State, e: Event)
    requires LoopOk(s) && (s.hub.latest.Some? ==> s.hub.latest.value < s.arrived)
    ensures Step(s, e).hub.latest.Some? ==> Step(s, e).hub.latest.value < Step(s, e).arrived
  {}

  /** Whenever no delivery to it is under way, the attached consumer's last item is the newest recorded resize. */
  lemma AttachedHoldsLatest(es: seq<Event>, c: ConsumerId)
    requires Exec(es).hub.dst == Some(c) && Exec(es).hub.latest.Some? && Delivering(Exec(es), c) == None
    ensures c < |Exec(es).consumers|
    ensures var flow := Exec(es).consumers[c].Flow();
            flow != [] && flow[|flow| - 1] == Exec(es).hub.latest.value
  {
    EveryScheduleKeepsInv(es);
  }

  /** While the loop is idle, the attached consumer's last item is the newest resize the session has sent. */
  lemma NewestIsNeverLost(es: seq<Event>, c: ConsumerId)
    requires Exec(es).loop.Waiting? && Exec(es).hub.dst == Some(c) && Exec(es).arrived > 0
    ensures c < |Exec(es).consumers|
    ensures var flow := Exec(es).consumers[c].Flow();
            flow != [] && flow[|flow| - 1] == Exec(es).arrived - 1
  {
    EveryScheduleKeepsInv(es);
  }

  /**
   Which consumers the end of the session releases.  The one still attached when the session ends is
   released, and so is every later one, except exactly those attached in the window between the
   loop's last look at `dst` and the closing of `done`.
   */
  lemma ReleaseIsExact(es: seq<Event>, c: ConsumerId)
    requires Exec(es).loop.Finished? && c < |Exec(es).consumers|
    ensures var s := Exec(es);
            && (s.consumers[c].chan.closed <==> s.owed == Some(c) || s.consumers[c].phase == After)
            && (s.owed == Some(c) || s.consumers[c].phase != Serving ==>
                  (s.consumers[c].chan.closed <==> s.consumers[c].phase != Window))
            && (s.hub.dst == Some(c) ==> s.consumers[c].phase == Window)
  {
    EveryScheduleKeepsInv(es);
    assert ChannelOk(Exec(es), c);
  }

  /** In no schedule is a consumer attached in that window ever released. */
  lemma WindowConsumersStayOpen(es: seq<Event>, c: ConsumerId)
    requires c < |Exec(es).consumers| && Exec(es).consumers[c].phase == Window
    ensures !Exec(es).consumers[c].chan.closed
  {
    EveryScheduleKeepsInv(es);
    assert ChannelOk(Exec(es), c);
  }

  ghost predicate InWindow(s: State, c: ConsumerId) {
    c < |s.consumers| && s.consumers[c].phase == Window
  }

  lemma WindowStep(s: State, e: Event, c: ConsumerId)
    requires InWindow(s, c)
    ensures InWindow(Step(s, e), c)
  {
    FlowSteps(s, e, c);
  }

  lemma {:induction false} WindowLasts(es: seq<Event>, later: seq<Event>, c: ConsumerId)
    requires InWindow(Exec(es), c)
    ensures InWindow(Exec(es + later), c)
  {
    if later == [] {
      assert es + later == es;
    } else {
      var before, e := es + later[..|later| - 1], later[|later| - 1];
      WindowLasts(es, later[..|later| - 1], c);
      assert es + later == before + [e];
      ExecSnoc(before, e);
      WindowStep(Exec(before), e, c);
    }
  }

  /** Nor does anything that follows change that. */
  lemma WindowConsumersStayStranded(es: seq<Event>, later: seq<Event>, c: ConsumerId)
    requires c < |Exec(es).consumers| && Exec(es).consumers[c].phase == Window
    ensures c < |Exec(es + later).consumers| && !Exec(es + later).consumers[c].chan.closed
  {
    WindowLasts(es, later, c);
    WindowConsumersStayOpen(es + later, c);
  }

  /** And there are such consumers at the end of a session, one of them attached to a pump that has finished. */
  lemma WindowConsumerIsStranded() returns (es: seq<Event>)
    ensures Exec(es).loop.Finished? && Exec(es).hub.dst == Some(0)
    ensures |Exec(es).consumers| == 1 && Exec(es).consumers[0].phase == Window && !Exec(es).consumers[0].chan.closed
  {
    var stranded := Consumer(Chan(None, false), [], None, Window);
    var over := INIT.(loop := Releasing(None));
    var attached := over.(hub := Hub(Some(0), None), consumers := [stranded]);
    es := Then([], INIT, SourceEnds);
    es := Then(es, over, Attach);
    es := Then(es, attached, CloseConsumer);
    es := Then(es, attached.(loop := Exiting), CloseDone);
  }

  // ------------------------------------------------------------- the Go objects

  datatype WindowSize = WindowSize(width: int, height: int)

  class Channel {
    var slot: Option<WindowSize>
    var closed: bool

    ghost function View(): Chan<WindowSize> reads this { Chan(slot, closed) }

    constructor ()
      ensures View() == Chan(None, false)
    {
      slot, closed := None, false;
    }

    method TrySend(w: WindowSize) returns (sent: bool)
      requires !closed
      modifies `slot
      ensures View() == Offered(old(View()), w) && (sent <==> old(slot) == None)
      ensures slot == if old(slot) == None then Some(w) else old(slot)
    {
      sent := slot.None?;
      if sent {
        slot := Some(w);
      }
    }

    method TryReceive()
      modifies `slot
      ensures View() == Emptied(old(View())) && slot == None
    {
      slot := None;
    }

    /** Between two operations of the pump the consumer may have taken the pending item, or not. */
    method Interference()
      modifies `slot
      ensures slot == old(slot) || slot == None
    {
      if * {
        slot := None;
      }
    }
  }

  /** Replaces a stale pending resize instead of blocking, against a consumer that receives at any moment. */
  method Deliver(ch: Channel, w: WindowSize) returns (tries: nat)
    requires !ch.closed
    modifies ch`slot
    ensures ch.slot == Some(w) && 1 <= tries <= 2
    ensures tries == 2 ==> old(ch.slot).Some?
  {
    tries := 0;
    while true
      invariant tries <= 1 && (tries == 1 ==> ch.slot == None && old(ch.slot).Some?)
      invariant ch.slot == None || ch.slot == old(ch.slot)
      decreases 2 - tries
    {
      ch.Interference();
      tries := tries + 1;
      var sent := ch.TrySend(w);
      if sent {
        return;
      }
      ch.Interference();
      ch.TryReceive();
    }
  }

  class WinchPump {
    var dst: Channel?
    var latest: Option<WindowSize>
    var done: bool

    ghost function View(): Hub<Channel, WindowSize> reads this {
      Hub(if dst == null then None else Some(dst as Channel), latest)
    }

    constructor ()
      ensures View() == Hub(None, None) && dst == null && latest == None && !done
    {
      dst, latest, done := null, None, false;
    }

    /** The loop's critical section on a resize; the result is where to deliver it. */
    method Record(w: WindowSize) returns (to: Channel?)
      modifies `latest
      ensures View() == Recorded(old(View()), w) && latest == Some(w) && to == dst
    {
      latest := Some(w);
      to := dst;
    }

    /** The loop's last critical section, followed by the close of the consumer it found. */
    method Release()
      requires dst != null ==> !dst.closed
      modifies `dst, if dst == null then {} else {dst}
      ensures View() == Released(old(View())) && dst == null
      ensures old(dst) != null ==> old(dst).View() == Shut(old(dst.View()))
      ensures old(dst) != null ==> old(dst).closed && old(dst).slot == old(dst.slot)
    {
      var last := dst;
      dst := null;
      if last != null {
        last.closed := true;
      }
    }

    /** A fresh consumer holds the latest size at once; after the session's end it is closed instead. */
    method Attach() returns (ch: Channel)
      modifies `dst
      ensures fresh(ch) && ch.View() == Opened(done, latest)
      ensures View() == Attached(old(View()), done, ch)
      ensures if done then dst == old(dst) && ch.closed else dst == ch && !ch.closed && ch.slot == latest
    {
      ch := new Channel();
      if done {
        ch.closed := true;
        return;
      }
      dst := ch;
      if latest.Some? {
        var sent := ch.TrySend(latest.value);
        assert sent;
      }
    }

    method Detach()
      modifies `dst
      ensures View() == Released(old(View())) && dst == null
    {
      dst := null;
    }
  }
}
