/**
 The pending queue under arbitrary interleaving.  Callers of append_message
 look at the phase first and act later; the flush peeks, appends and drops its
 head in three separate steps; the phase may change at any time in between.
 */
module HarnessQueue {
  import opened Prelude
  import opened HarnessSession

  datatype Caller =
    | Calling(m: Message)            // before the phase is looked at
    | Queueing(m: Message)           // saw a busy phase
    | Direct(m: Message)             // saw the idle phase
    | Done

  datatype Flush = Off | Looking | Holding(m: Message) | Dropping | Broken

  datatype World = World(
    busy: bool, pending: seq<Message>, session: seq<Entry>, flush: Flush, callers: seq<Caller>,
    pushed: seq<Message>)  // history: everything ever pushed to the queue, in order

  datatype Event =
    | Caller(i: nat)
    | FlushStep(ok: bool)
    | FlushStart
    | PhaseChange(busy: bool)

  function CallerStep(w: World, i: nat): World {
    if i >= |w.callers| then w else
    match w.callers[i]
    case Calling(m) => w.(callers := w.callers[i := if w.busy then Queueing(m) else Direct(m)])
    case Queueing(m) =>
      w.(callers := w.callers[i := Done], pending := w.pending + [m], pushed := w.pushed + [m])
    case Direct(m) => w.(callers := w.callers[i := Done], session := w.session + [Entry(m, false)])
    case Done => w
  }

  function FlushTurn(w: World, ok: bool): World {
    match w.flush
    case Looking => if w.pending == [] then w.(flush := Off) else w.(flush := Holding(w.pending[0]))
    case Holding(m) =>
      if ok then w.(flush := Dropping, session := w.session + [Entry(m, true)])
      else w.(flush := Broken, busy := false)
    case Dropping => w.(flush := Looking, pending := if w.pending == [] then [] else w.pending[1..])
    case _ => w
  }

  function Step(w: World, e: Event): World {
    match e
    case Caller(i) => CallerStep(w, i)
    case FlushStart => if w.flush.Off? || w.flush.Broken? then w.(flush := Looking) else w
    case PhaseChange(busy) => w.(busy := busy)
    case FlushStep(ok) => FlushTurn(w, ok)
  }

  function Run(w: World, events: seq<Event>): World
    decreases events
  {
    if events == [] then w else Run(Step(w, events[0]), events[1..])
  }

  /** The head is in the session already while it waits to be dropped. */
  predicate Fifo(w: World) {
    && (w.flush.Holding? ==> w.pending != [] && w.pending[0] == w.flush.m)
    && (w.flush.Dropping? ==> w.pending != [])
    && w.pushed == Delivered(w.session) + (if w.flush.Dropping? && w.pending != [] then w.pending[1..] else w.pending)
  }

  lemma CallerKeepsFifo(w: World, i: nat)
    requires Fifo(w)
    ensures Fifo(CallerStep(w, i))
  {
    hide Received;
    if i < |w.callers| {
      match w.callers[i] {
        case Queueing(m) => QueueingKeepsFifo(w, m);
        case Direct(m) => ReceivedSnoc(w.session, Entry(m, false), true);
        case _ =>
      }
    }
  }

  lemma QueueingKeepsFifo(w: World, m: Message)
    requires Fifo(w)
    ensures Fifo(w.(pending := w.pending + [m], pushed := w.pushed + [m]))
  {
    hide Received;
    var rest := if w.flush.Dropping? then w.pending[1..] else w.pending;
    ConcatAssociative(Delivered(w.session), rest, [m]);
    if w.flush.Dropping? {
      assert (w.pending + [m])[1..] == w.pending[1..] + [m];
    }
  }

  lemma FlushKeepsFifo(w: World, ok: bool)
    requires Fifo(w)
    ensures Fifo(FlushTurn(w, ok))
  {
    hide Received;
    if w.flush.Holding? && ok {
      ReceivedSnoc(w.session, Entry(w.flush.m, true), true);
      assert w.pending == [w.flush.m] + w.pending[1..];
      ConcatAssociative(Delivered(w.session), [w.flush.m], w.pending[1..]);
    }
  }

  lemma StepKeepsFifo(w: World, e: Event)
    requires Fifo(w)
    ensures Fifo(Step(w, e))
  {
    match e {
      case Caller(i) => CallerKeepsFifo(w, i);
      case FlushStep(ok) => FlushKeepsFifo(w, ok);
      case _ =>
    }
  }

  /**
   Every interleaving keeps the queue first-in first-out and exactly-once: what
   the session got from the queue, followed by what is still queued, is what
   was pushed.
   */
  lemma {:induction false} QueueIsFifo(w: World, events: seq<Event>)
    requires Fifo(w)
    ensures Fifo(Run(w, events))
    decreases events
  {
    if events != [] {
      StepKeepsFifo(w, events[0]);
      QueueIsFifo(Step(w, events[0]), events[1..]);
    }
  }

  predicate Fresh(w: World) {
    w.pending == [] && w.session == [] && w.pushed == [] && w.flush == Off
  }

  predicate NoFlushStarts(events: seq<Event>) { forall i | 0 <= i < |events| :: !events[i].FlushStart? }

  /** With the flush off nothing leaves the queue, and nothing queued reaches the session. */
  lemma {:induction false} QueueWaits(w: World, events: seq<Event>)
    requires Fifo(w) && (w.flush.Off? || w.flush.Broken?) && NoFlushStarts(events)
    ensures var end := Run(w, events);
            && Fifo(end) && end.flush == w.flush && Delivered(end.session) == Delivered(w.session)
            && w.pending <= end.pending && end.pushed == Delivered(w.session) + end.pending
    decreases events
  {
    if events != [] {
      hide Received;
      var next := Step(w, events[0]);
      StepKeepsFifo(w, events[0]);
      StepWaits(w, events[0]);
      assert forall i | 0 <= i < |events| - 1 :: events[1..][i] == events[i + 1];
      QueueWaits(next, events[1..]);
    }
  }

  lemma StepWaits(w: World, e: Event)
    requires (w.flush.Off? || w.flush.Broken?) && !e.FlushStart?
    ensures var next := Step(w, e);
            next.flush == w.flush && w.pending <= next.pending && Delivered(next.session) == Delivered(w.session)
  {
    hide Received;
    if e.Caller? && e.i < |w.callers| && w.callers[e.i].Direct? {
      ReceivedSnoc(w.session, Entry(w.callers[e.i].m, false), true);
    }
  }

  /**
   A flush ends with its last look, at an empty queue.  Everything pushed before
   that look is delivered; until the next flush starts the queue holds exactly
   what was pushed after it, in order.
   */
  lemma FlushedIsDelivered(w: World, before: seq<Event>, ok: bool, after: seq<Event>)
    requires Fresh(w) && NoFlushStarts(after)
    requires var look := Run(w, before); look.flush.Looking? && look.pending == []
    ensures var (look, end) := (Run(w, before), Run(Run(w, before), [FlushStep(ok)] + after));
            && end.flush.Off? && Delivered(end.session) == look.pushed && end.pushed == look.pushed + end.pending
  {
    QueueIsFifo(w, before);
    var look := Run(w, before);
    assert ([FlushStep(ok)] + after)[1..] == after;
    QueueWaits(FlushTurn(look, ok), after);
  }

  /** Over every run, the queued messages the session has are the first ones pushed. */
  lemma DeliveredIsPrefix(w: World, events: seq<Event>)
    requires Fresh(w)
    ensures var end := Run(w, events);
            && Delivered(end.session) <= end.pushed
            && (end.flush.Off? || end.flush.Broken? ==> end.pushed == Delivered(end.session) + end.pending)
  {
    QueueIsFifo(w, events);
  }

  /** Histories only grow. */
  lemma {:induction false} HistoriesGrow(w: World, events: seq<Event>)
    ensures var end := Run(w, events);
            w.pushed <= end.pushed && Delivered(w.session) <= Delivered(end.session)
    decreases events
  {
    if events != [] {
      hide Received;
      var next := Step(w, events[0]);
      match events[0] {
        case Caller(i) =>
          if i < |w.callers| && w.callers[i].Direct? {
            ReceivedSnoc(w.session, Entry(w.callers[i].m, false), true);
          }
        case FlushStep(ok) =>
          if w.flush.Holding? && ok {
            ReceivedSnoc(w.session, Entry(w.flush.m, true), true);
          }
        case _ =>
      }
      HistoriesGrow(next, events[1..]);
    }
  }

  /** Whatever happens, the head of the queue is the next queued message to reach the session. */
  lemma HeadIsNext(w: World, events: seq<Event>)
    requires Fifo(w) && !w.flush.Dropping? && w.pending != []
    ensures var (old', new') := (Delivered(w.session), Delivered(Run(w, events).session));
            new' == old' || old' + [w.pending[0]] <= new'
  {
    hide Received;
    var end := Run(w, events);
    QueueIsFifo(w, events);
    HistoriesGrow(w, events);
    var n := |Delivered(w.session)|;
    assert w.pushed[n] == w.pending[0];
    if |Delivered(end.session)| > n {
      assert Delivered(end.session)[n] == end.pushed[n] == w.pushed[n];
    }
  }

  /**
   A failed append: until another flush starts, every message that was queued,
   the failed one first, stays queued in order, and none of them reaches the
   session; afterwards the failed one is the first to be delivered.
   */
  lemma FailedAppendKeepsQueue(w: World, waiting: seq<Event>, later: seq<Event>)
    requires Fifo(w) && w.flush.Holding? && NoFlushStarts(waiting)
    ensures var failed := Step(w, FlushStep(false));
            var end := Run(failed, waiting);
            var (given, given') := (Delivered(w.session), Delivered(Run(end, later).session));
            && !failed.busy && end.flush.Broken? && w.pending <= end.pending && Delivered(end.session) == given
            && (given' == given || given + [w.flush.m] <= given')
  {
    hide Received;
    var failed := Step(w, FlushStep(false));
    FlushKeepsFifo(w, false);
    QueueWaits(failed, waiting);
    HeadIsNext(Run(failed, waiting), later);
  }

  /** n turns of the flush loop, every append succeeding. */
  function Rounds(w: World, n: nat): World
    decreases n
  {
    if n == 0 then w else Rounds(FlushTurn(FlushTurn(FlushTurn(w, true), true), true), n - 1)
  }

  lemma OneRound(w: World)
    requires Fifo(w) && w.flush.Looking? && w.pending != []
    ensures var t := FlushTurn(FlushTurn(FlushTurn(w, true), true), true);
            && Fifo(t) && t.flush.Looking? && t.pushed == w.pushed && t.pending == w.pending[1..]
            && t.session == w.session + [Entry(w.pending[0], true)]
  {
    FlushKeepsFifo(w, true);
    FlushKeepsFifo(FlushTurn(w, true), true);
    FlushKeepsFifo(FlushTurn(FlushTurn(w, true), true), true);
  }

  /** The flush empties the queue in one turn per message when nobody pushes. */
  lemma {:induction false} QuietFlush(w: World)
    requires Fifo(w) && w.flush.Looking?
    ensures var end := FlushTurn(Rounds(w, |w.pending|), true);
            end.flush.Off? && end.pending == [] && Delivered(end.session) == w.pushed
    decreases |w.pending|
  {
    if w.pending != [] {
      OneRound(w);
      QuietFlush(FlushTurn(FlushTurn(FlushTurn(w, true), true), true));
    }
  }

  // ----- stranded messages -----

  /** The phase may become idle, and does not become busy again. */
  predicate Idles(events: seq<Event>) { forall i | 0 <= i < |events| :: events[i] != PhaseChange(true) }

  /** Some caller is going to queue its message whatever the phase becomes: it saw the busy phase. */
  predicate SomeQueueing(w: World) { exists i :: 0 <= i < |w.callers| && w.callers[i].Queueing? }

  predicate SomeCalling(w: World) { exists i :: 0 <= i < |w.callers| && w.callers[i].Calling? }

  /** Until the phase becomes busy again, nothing is ever queued. */
  ghost predicate NothingStranded(w: World) { forall events | Idles(events) :: Run(w, events).pending == [] }

  /** Without another flush, the harness can come to rest idle with a message in its queue. */
  ghost predicate CanStrand(w: World) {
    exists events :: Idles(events) && NoFlushStarts(events) && RestsWithMessage(Run(w, events))
  }

  predicate RestsWithMessage(w: World) { w.flush.Off? && !w.busy && w.pending != [] }

  /** A caller can still take the way to the queue. */
  predicate SomeMayQueue(w: World) { SomeQueueing(w) || (w.busy && SomeCalling(w)) }

  lemma {:induction false} QuietStaysEmpty(w: World, events: seq<Event>)
    requires (w.flush.Off? || w.flush.Looking? || w.flush.Broken?) && w.pending == [] && !SomeMayQueue(w)
    requires Idles(events)
    ensures Run(w, events).pending == []
    decreases events
  {
    if events != [] {
      var next := Step(w, events[0]);
      assert next.busy ==> w.busy;
      assert forall i | 0 <= i < |next.callers| && next.callers[i].Queueing? ::
               w.callers[i].Queueing? || (w.busy && w.callers[i].Calling?);
      assert forall i | 0 <= i < |next.callers| && next.callers[i].Calling? :: w.callers[i].Calling?;
      assert forall i | 0 <= i < |events| - 1 :: events[1..][i] == events[i + 1];
      QuietStaysEmpty(next, events[1..]);
    }
  }

  /** The caller queues its message, and the phase becomes idle. */
  lemma QueueingStrands(w: World, i: nat) returns (events: seq<Event>)
    requires w.flush.Off? && w.pending == [] && i < |w.callers| && w.callers[i].Queueing?
    ensures Idles(events) && NoFlushStarts(events) && RestsWithMessage(Run(w, events))
  {
    var v;
    v, events := Advance(w, w, [], Caller(i));
    v, events := Advance(w, v, events, PhaseChange(false));
  }

  lemma CallingStrands(w: World, i: nat) returns (events: seq<Event>)
    requires w.flush.Off? && w.pending == [] && w.busy && i < |w.callers| && w.callers[i].Calling?
    ensures Idles(events) && NoFlushStarts(events) && RestsWithMessage(Run(w, events))
  {
    var rest := QueueingStrands(CallerStep(w, i), i);
    events := [Caller(i)] + rest;
    assert events[1..] == rest;
  }

  /**
   Exactly when a message can be left behind after the last look of a flush:
   when some caller saw the busy phase and has yet to queue its message, or the
   phase is still busy and some caller has yet to look at it.
   */
  lemma NothingStrandedIff(w: World)
    requires w.flush.Off? && w.pending == []
    ensures NothingStranded(w) <==> !SomeMayQueue(w)
    ensures CanStrand(w) <==> SomeMayQueue(w)
  {
    if SomeMayQueue(w) {
      var events;
      if i :| 0 <= i < |w.callers| && w.callers[i].Queueing? {
        events := QueueingStrands(w, i);
      } else {
        var i :| 0 <= i < |w.callers| && w.callers[i].Calling?;
        events := CallingStrands(w, i);
      }
      assert RestsWithMessage(Run(w, events));
    } else {
      forall events | Idles(events) ensures Run(w, events).pending == [] {
        QuietStaysEmpty(w, events);
      }
    }
  }

  /**
   The window between the last look of the flush and the idle phase: a whole
   call of append_message falls into it, and its message stays behind.
   */
  lemma WindowPushIsStranded(m: Message)
    ensures exists w, events :: Fresh(w) && w.busy && w.callers == [Calling(m)]
              && var end := Run(w, events);
                 end.flush == Off && !end.busy && end.callers == [Done] && end.pending == [m] && end.session == []
  {
    var w0 := World(true, [], [], Off, [Calling(m)], []);
    var w, events: seq<Event> := w0, [];
    w, events := Advance(w0, w, events, FlushStart);
    w, events := Advance(w0, w, events, FlushStep(true));
    assert w == w0;
    w, events := Advance(w0, w, events, Caller(0));
    w, events := Advance(w0, w, events, Caller(0));
    w, events := Advance(w0, w, events, PhaseChange(false));
    assert w == World(false, [m], [], Off, [Done], [m]);
  }

  /**
   A caller that saw the busy phase but pushes after the last look leaves its
   message behind: the harness is idle, the flush is over, and the message
   stays queued while a later one goes straight to the session.
   */
  lemma LatePushIsStranded(early: Message, late: Message)
    ensures exists w, events :: Fresh(w) && w.busy && w.callers == [Calling(early), Calling(late)]
              && var end := Run(w, events);
                 && end.flush == Off && !end.busy && end.callers == [Done, Done]
                 && end.pending == [early] && end.session == [Entry(late, false)]
  {
    var w0 := World(true, [], [], Off, [Calling(early), Calling(late)], []);
    var w, events: seq<Event> := w0, [];
    w, events := Advance(w0, w, events, Caller(0));
    w, events := Advance(w0, w, events, FlushStart);
    w, events := Advance(w0, w, events, FlushStep(true));
    w, events := Advance(w0, w, events, PhaseChange(false));
    assert w == World(false, [], [], Off, [Queueing(early), Calling(late)], []);
    w, events := Advance(w0, w, events, Caller(0));
    w, events := Advance(w0, w, events, Caller(1));
    w, events := Advance(w0, w, events, Caller(1));
    assert w == World(false, [early], [Entry(late, false)], Off, [Done, Done], [early]);
  }

  lemma Advance(start: World, w: World, events: seq<Event>, e: Event) returns (w': World, longer: seq<Event>)
    requires Run(start, events) == w
    ensures w' == Step(w, e) && Run(start, longer) == w' && longer == events + [e]
  {
    w', longer := Step(w, e), events + [e];
    RunSnoc(start, events, e);
  }

  lemma {:induction false} RunSnoc(w: World, events: seq<Event>, last: Event)
    ensures Run(w, events + [last]) == Step(Run(w, events), last)
    decreases events
  {
    if events == [] {
      assert events + [last] == [last];
      assert Run(Step(w, last), [last][1..]) == Step(w, last);
    } else {
      assert (events + [last])[1..] == events[1..] + [last];
      RunSnoc(Step(w, events[0]), events[1..], last);
    }
  }
}
