/**
 The agent harness: the event bridge and the flush of pending messages as the
 code runs them, on mutable fields.  Other callers may append before an event
 is handled, in every turn of the flush, between its last look and the change
 of phase that follows, and before the target is finished; the environment says
 what they append and whether the session's own append succeeds.
 */
module Harness {
  import opened Prelude
  import opened HarnessSession

  datatype Event = Event(kind: string, payload: string)

  datatype Phase = Idle | Turn | Compaction | Retry | BranchSummary

  const COMPACTION_START := "compaction_start"
  const RETRY_START := "auto_retry_start"
  const BRANCH_SUMMARY_START := "branch_summary_start"
  const TURN_END := "turn_end"
  const SESSION_END := "session_end"
  const AGENT_SETTLED := "agent_settled"

  /** One turn of the flush loop: what others append while the lock is free, and whether its own append succeeds. */
  datatype Meanwhile = Meanwhile(pushed: seq<Message>, ok: bool)

  /** What the environment does in turn k; after its script it stays quiet. */
  function At(script: seq<Meanwhile>, k: nat): Meanwhile {
    if k < |script| then script[k] else Meanwhile([], true)
  }

  function Pushed(script: seq<Meanwhile>, i: nat, j: nat): seq<Message>
    decreases j
  {
    if i >= j then [] else Pushed(script, i, j - 1) + At(script, j - 1).pushed
  }

  /** Event n is handled while turns cuts[n] .. cuts[n + 1] of the environment pass. */
  predicate Ordered(cuts: seq<nat>) {
    cuts != [] && cuts[0] == 0 && forall i | 0 < i < |cuts| :: cuts[i - 1] <= cuts[i]
  }

  // ----- handlers -----

  /** The handler calls one event causes: its own kind first, then '*'. */
  function CallsOf<E>(handlers: set<string>, kind: string, e: E): seq<(string, E)> {
    (if kind in handlers then [(kind, e)] else []) + (if "*" in handlers then [("*", e)] else [])
  }

  function CallsFor(handlers: set<string>, events: seq<Event>): seq<(string, Event)> {
    if events == [] then [] else
    var e := events[|events| - 1];
    CallsFor(handlers, events[..|events| - 1]) + CallsOf(handlers, e.kind, e)
  }

  /** What one handler hears. */
  function Heard(calls: seq<(string, Event)>, key: string): seq<Event> {
    if calls == [] then [] else
    var last := calls[|calls| - 1];
    Heard(calls[..|calls| - 1], key) + (if last.0 == key then [last.1] else [])
  }

  function OfKind(events: seq<Event>, kind: string): seq<Event> {
    if events == [] then [] else
    var e := events[|events| - 1];
    OfKind(events[..|events| - 1], kind) + (if kind == "*" || e.kind == kind then [e] else [])
  }

  /** The calls of the handlers that are only told the kind. */
  function Kinds(calls: seq<(string, Event)>): seq<(string, string)> {
    seq(|calls|, i requires 0 <= i < |calls| => (calls[i].0, calls[i].1.kind))
  }

  lemma KindsAppend(calls: seq<(string, Event)>, handlers: set<string>, e: Event)
    ensures Kinds(calls + CallsOf(handlers, e.kind, e)) == Kinds(calls) + CallsOf(handlers, e.kind, e.kind)
  {
  }

  lemma {:induction false} HeardAppend(a: seq<(string, Event)>, b: seq<(string, Event)>, key: string)
    ensures Heard(a + b, key) == Heard(a, key) + Heard(b, key)
    decreases b
  {
    if b == [] {
      assert a + b == a;
    } else {
      assert (a + b)[..|a + b| - 1] == a + b[..|b| - 1];
      HeardAppend(a, b[..|b| - 1], key);
    }
  }

  /** A registered handler hears exactly its events, once each, in order; '*' hears all of them. */
  lemma {:induction false} HandlerHearsItsEvents(handlers: set<string>, events: seq<Event>, key: string)
    requires key in handlers && forall i | 0 <= i < |events| :: events[i].kind != "*"
    ensures Heard(CallsFor(handlers, events), key) == OfKind(events, key)
    decreases events
  {
    if events != [] {
      var (init, e) := (events[..|events| - 1], events[|events| - 1]);
      HandlerHearsItsEvents(handlers, init, key);
      HeardAppend(CallsFor(handlers, init), CallsOf(handlers, e.kind, e), key);
      HeardOne(handlers, e, key);
    }
  }

  lemma HeardOne(handlers: set<string>, e: Event, key: string)
    requires key in handlers && e.kind != "*"
    ensures Heard(CallsOf(handlers, e.kind, e), key) == if key == "*" || e.kind == key then [e] else []
  {
    var own := if e.kind in handlers then [(e.kind, e)] else [];
    var all := if "*" in handlers then [("*", e)] else [];
    HeardAppend(own, all, key);
    assert own != [] ==> own[..0] == [];
    assert all != [] ==> all[..0] == [];
  }

  // ----- phases -----

  function Started(phase: Phase, kind: string): Phase {
    if kind == COMPACTION_START then Compaction
    else if kind == RETRY_START then Retry
    else if kind == BRANCH_SUMMARY_START then BranchSummary
    else phase
  }

  function PhaseAfter(phase: Phase, events: seq<Event>): Phase {
    if events == [] then phase else
    var e := events[|events| - 1];
    if e.kind == AGENT_SETTLED || e.kind == SESSION_END then Idle
    else Started(PhaseAfter(phase, events[..|events| - 1]), e.kind)
  }

  // ----- what other callers append while the bridge runs -----

  /** What others append before event n is handled, and after its flush while the phase is as before. */
  datatype Others = Others(before: seq<Message>, window: seq<Message>)

  /** One event: one phase up to the end of the flush, perhaps another in the window. */
  predicate EventAccounts(s0: seq<Entry>, p0: seq<Message>, s1: seq<Entry>, p1: seq<Message>,
                          phase: Phase, kind: string, first: seq<Message>, window: seq<Message>)
  {
    var (idle, idle') := (phase == Idle, Started(phase, kind) == Idle);
    Accounts(s0, p0, s1, p1, Part(false, idle, first) + Part(false, idle', window),
             Part(true, idle, first) + Part(true, idle', window))
  }

  /** What arrives with event n on one of the two ways. */
  function Arrived(direct: bool, phase: Phase, kind: string, first: seq<Message>, window: seq<Message>): seq<Message> {
    Part(direct, phase == Idle, first) + Part(direct, Started(phase, kind) == Idle, window)
  }

  /** What arrives with the first n events on one of the two ways, in order. */
  function Arrivals(direct: bool, phase: Phase, source: seq<Event>, script: seq<Meanwhile>,
                    others: seq<Others>, cuts: seq<nat>, n: nat): seq<Message>
    requires Ordered(cuts) && n < |cuts| && n <= |others| && n <= |source|
  {
    if n == 0 then [] else
    Arrivals(direct, phase, source, script, others, cuts, n - 1)
    + Arrived(direct, PhaseAfter(phase, source[..n - 1]), source[n - 1].kind,
              others[n - 1].before + Pushed(script, cuts[n - 1], cuts[n]), others[n - 1].window)
  }

  lemma {:induction false} ArrivalsExtend(direct: bool, phase: Phase, source: seq<Event>, script: seq<Meanwhile>,
                                          others: seq<Others>, cuts: seq<nat>, later: nat, n: nat)
    requires Ordered(cuts) && n < |cuts| && n <= |others| && n <= |source| && cuts[|cuts| - 1] <= later
    ensures Ordered(cuts + [later])
    ensures Arrivals(direct, phase, source, script, others, cuts + [later], n) ==
            Arrivals(direct, phase, source, script, others, cuts, n)
  {
    if n > 0 {
      ArrivalsExtend(direct, phase, source, script, others, cuts, later, n - 1);
    }
  }

  /** The account of one more event. */
  lemma OneMoreArrived(phase: Phase, source: seq<Event>, script: seq<Meanwhile>, others: seq<Others>,
                       cuts: seq<nat>, later: nat, s0: seq<Entry>, p0: seq<Message>,
                       s1: seq<Entry>, p1: seq<Message>, s2: seq<Entry>, p2: seq<Message>)
    requires Ordered(cuts) && |cuts| <= |others| == |source| && cuts[|cuts| - 1] <= later
    requires var n := |cuts| - 1;
             && Accounts(s0, p0, s1, p1, Arrivals(false, phase, source, script, others, cuts, n),
                         Arrivals(true, phase, source, script, others, cuts, n))
             && EventAccounts(s1, p1, s2, p2, PhaseAfter(phase, source[..n]), source[n].kind,
                              others[n].before + Pushed(script, cuts[n], later), others[n].window)
    ensures Ordered(cuts + [later])
    ensures var (longer, n) := (cuts + [later], |cuts|);
            Accounts(s0, p0, s2, p2, Arrivals(false, phase, source, script, others, longer, n),
                     Arrivals(true, phase, source, script, others, longer, n))
  {
    hide Accounts, Pushed, PhaseAfter, Started, Part;
    var n := |cuts| - 1;
    var (now, e, other) := (PhaseAfter(phase, source[..n]), source[n], others[n]);
    var first := other.before + Pushed(script, cuts[n], later);
    AccountsThen(s0, p0, s1, p1, s2, p2,
                 Arrivals(false, phase, source, script, others, cuts, n),
                 Arrivals(true, phase, source, script, others, cuts, n),
                 Arrived(false, now, e.kind, first, other.window), Arrived(true, now, e.kind, first, other.window));
    ArrivalsExtend(false, phase, source, script, others, cuts, later, n);
    ArrivalsExtend(true, phase, source, script, others, cuts, later, n);
  }

  /** The session ended, a flush failed, or the source stream was lost first. */
  datatype Ending = SessionEnded | FlushFailed | SourceLost

  /** The bridge stops at the first session_end at the latest. */
  predicate EndsWith(source: seq<Event>, received: nat, ending: Ending) {
    && received <= |source|
    && (forall i | 0 <= i < received - 1 :: source[i].kind != SESSION_END)
    && match ending
       case SessionEnded => received > 0 && source[received - 1].kind == SESSION_END
       case FlushFailed =>
         received > 0 && (source[received - 1].kind == TURN_END || source[received - 1].kind == SESSION_END)
       case SourceLost =>
         received == |source| && (received > 0 ==> source[received - 1].kind != SESSION_END)
  }

  /** What a bridge that received n events leaves in the queue: the queued part of the last window. */
  function LeftBehind(phase: Phase, source: seq<Event>, others: seq<Others>, n: nat): seq<Message>
    requires 0 < n <= |source| && n <= |others|
  {
    Part(false, PhaseAfter(phase, source[..n - 1]) == Idle, others[n - 1].window)
  }

  /** Every handler has been called for exactly these events, in order. */
  predicate Told(handlers: set<string>, detailHandlers: set<string>, events: seq<Event>,
                 calls: seq<(string, string)>, calls': seq<(string, string)>,
                 details: seq<(string, Event)>, details': seq<(string, Event)>)
  {
    && calls' == calls + Kinds(CallsFor(handlers, events))
    && details' == details + CallsFor(detailHandlers, events)
  }

  lemma ToldOneMore(handlers: set<string>, detailHandlers: set<string>, source: seq<Event>, n: nat,
                    calls: seq<(string, string)>, calls': seq<(string, string)>,
                    details: seq<(string, Event)>, details': seq<(string, Event)>)
    requires n < |source| && Told(handlers, detailHandlers, source[..n], calls, calls', details, details')
    ensures var e := source[n];
            Told(handlers, detailHandlers, source[..n + 1], calls, calls' + CallsOf(handlers, e.kind, e.kind),
                 details, details' + CallsOf(detailHandlers, e.kind, e))
  {
    hide CallsOf, Kinds;
    var e := source[n];
    assert source[..n + 1][..n] == source[..n];
    KindsAppend(CallsFor(handlers, source[..n]), handlers, e);
    ConcatAssociative(calls, Kinds(CallsFor(handlers, source[..n])), CallsOf(handlers, e.kind, e.kind));
    ConcatAssociative(details, CallsFor(detailHandlers, source[..n]), CallsOf(detailHandlers, e.kind, e));
  }

  lemma ToldNothing(handlers: set<string>, detailHandlers: set<string>, source: seq<Event>,
                    calls: seq<(string, string)>, details: seq<(string, Event)>)
    ensures Told(handlers, detailHandlers, source[..0], calls, calls, details, details)
  {
  }

  lemma PhaseOneMore(phase: Phase, source: seq<Event>, n: nat)
    requires n < |source|
    ensures PhaseAfter(phase, source[..n + 1]) ==
            if source[n].kind == AGENT_SETTLED || source[n].kind == SESSION_END then Idle
            else Started(PhaseAfter(phase, source[..n]), source[n].kind)
  {
    assert source[..n + 1][..n] == source[..n];
  }

  class Target {
    var pushed: seq<Event>
    var finished: Option<seq<Message>>
    var failed: bool

    constructor ()
      ensures pushed == [] && finished == None && !failed
    {
      pushed, finished, failed := [], None, false;
    }
  }

  class AgentHarness {
    var phase: Phase
    var handlers: set<string>
    var detailHandlers: set<string>
    var calls: seq<(string, string)>        // handler, event kind
    var detailCalls: seq<(string, Event)>   // handler, event
    var pending: seq<Message>
    var session: seq<Entry>

    constructor ()
      ensures phase == Idle && pending == [] && session == [] && calls == [] && detailCalls == []
    {
      phase, handlers, detailHandlers := Idle, {}, {};
      calls, detailCalls, pending, session := [], [], [], [];
    }

    /** append_message: straight to the session when idle, queued otherwise. */
    method AppendMessage(m: Message)
      modifies this`session, this`pending
      ensures phase == Idle ==> session == old(session) + [Entry(m, false)] && pending == old(pending)
      ensures phase != Idle ==> session == old(session) && pending == old(pending) + [m]
    {
      if phase == Idle {
        session := session + [Entry(m, false)];
        return;
      }
      pending := pending + [m];
    }

    /** Other callers append some messages, one after the other, in the current phase. */
    method AppendAll(messages: seq<Message>)
      modifies this`session, this`pending
      ensures AccountsFor(old(session), old(pending), session, pending, phase == Idle, messages)
      ensures phase == Idle ==> pending == old(pending)
      ensures phase != Idle ==> session == old(session) && pending == old(pending) + messages
    {
      hide Accounts;
      NothingArrived(session, pending, phase == Idle);
      for i := 0 to |messages|
        invariant AccountsFor(old(session), old(pending), session, pending, phase == Idle, messages[..i])
        invariant phase == Idle ==> pending == old(pending)
        invariant phase != Idle ==> session == old(session) && pending == old(pending) + messages[..i]
      {
        ghost var (s, p) := (session, pending);
        OneArrived(s, p, phase == Idle, messages[i]);
        AppendMessage(messages[i]);
        AccountsForThen(old(session), old(pending), s, p, session, pending, phase == Idle, messages[..i], [messages[i]]);
        assert messages[..i] + [messages[i]] == messages[..i + 1];
      }
      assert messages[..|messages|] == messages;
    }

    /** prompt, compact and navigate_tree_with_summary refuse to start unless idle. */
    method Begin(next: Phase) returns (ok: bool)
      requires next != Idle
      modifies this`phase
      ensures ok == (old(phase) == Idle) && phase == if ok then next else old(phase)
    {
      ok := phase == Idle;
      if ok {
        phase := next;
      }
    }

    method Emit(kind: string)
      modifies this`calls
      ensures calls == old(calls) + CallsOf(handlers, kind, kind)
    {
      if kind in handlers {
        calls := calls + [(kind, kind)];
      }
      if "*" in handlers {
        calls := calls + [("*", kind)];
      }
    }

    method EmitEvent(event: Event)
      modifies this`detailCalls
      ensures detailCalls == old(detailCalls) + CallsOf(detailHandlers, event.kind, event)
    {
      if event.kind in detailHandlers {
        detailCalls := detailCalls + [(event.kind, event)];
      }
      if "*" in detailHandlers {
        detailCalls := detailCalls + [("*", event)];
      }
    }

    /**
     Peek under the lock, append without it, drop the head under the lock.
     Nothing is lost, duplicated or reordered, whatever others append meanwhile,
     to the queue in a busy phase and to the session itself in an idle one.
     */
    method FlushPendingMessages(script: seq<Meanwhile>, from: nat) returns (ok: bool, used: nat)
      modifies this`pending, this`session
      ensures from <= used
      ensures AccountsFor(old(session), old(pending), session, pending, phase == Idle, Pushed(script, from, used))
      ensures ok ==> pending == [] && forall k | from <= k < used :: At(script, k).ok
      ensures !ok ==> pending != [] && from < used && !At(script, used - 1).ok
                      && forall k | from <= k < used - 1 :: At(script, k).ok
    {
      hide Accounts;
      used := from;
      NothingArrived(session, pending, phase == Idle);
      while true
        invariant from <= used
        invariant AccountsFor(old(session), old(pending), session, pending, phase == Idle, Pushed(script, from, used))
        invariant forall k | from <= k < used :: At(script, k).ok
        decreases Max(0, |script| - used), |pending|
      {
        if |pending| == 0 {
          return true, used;
        }
        var message := pending[0];
        var meanwhile := At(script, used);
        ghost var (s, p, arrived) := (session, pending, Pushed(script, from, used));
        AppendAll(meanwhile.pushed);
        AccountsForThen(old(session), old(pending), s, p, session, pending, phase == Idle, arrived, meanwhile.pushed);
        used := used + 1;
        if !meanwhile.ok {
          return false, used;
        }
        s, p := session, pending;
        HeadMoved(s, p, phase == Idle);
        session := session + [Entry(message, true)];
        pending := pending[1..];
        AccountsForThen(old(session), old(pending), s, p, session, pending, phase == Idle,
                        Pushed(script, from, used), []);
        assert Pushed(script, from, used) + [] == Pushed(script, from, used);
      }
    }

    /**
     The bridge coroutine.  `others[n]` is what other callers append around
     event n, `closing` what they append before the target is finished.  The
     result says how many events were received and how the bridge ended; `cuts`
     says which turns of the script fell to which event.  After a session_end the
     queue holds what was queued in the window after the last look of the flush,
     and nothing else.
     */
    method Bridge(source: seq<Event>, target: Target, script: seq<Meanwhile>, others: seq<Others>, closing: seq<Message>)
      returns (received: nat, ending: Ending, ghost cuts: seq<nat>)
      requires |others| == |source| && target.pushed == [] && target.finished == None && !target.failed
      modifies this`phase, this`pending, this`session, this`calls, this`detailCalls, target
      ensures EndsWith(source, received, ending) && received <= |others|
      ensures Ordered(cuts) && |cuts| == received + 1
      ensures Accounts(old(session), old(pending), session, pending,
                       Arrivals(false, old(phase), source, script, others, cuts, received)
                       + Part(false, phase == Idle, closing),
                       Arrivals(true, old(phase), source, script, others, cuts, received)
                       + Part(true, phase == Idle, closing))
      ensures var handled := source[..if ending.FlushFailed? then received - 1 else received];
              Told(handlers, detailHandlers, handled, old(calls), calls, old(detailCalls), detailCalls)
      ensures target.pushed == source[..if ending.SourceLost? then received else received - 1]
      ensures target.finished == (if ending.SessionEnded? then Some(Messages(session)) else None)
      ensures target.failed == !ending.SessionEnded?
      ensures ending.SessionEnded? ==>
                received > 0 && phase == Idle && pending == LeftBehind(old(phase), source, others, received)
      ensures ending.FlushFailed? ==> phase == Idle && pending != []
      ensures ending.SourceLost? ==> phase == PhaseAfter(old(phase), source)
      ensures (forall k | 0 <= k < |script| :: script[k].ok) ==> !ending.FlushFailed?
    {
      hide Accounts;
      received, ending, cuts := Pump(source, target, script, others);
      ghost var (s, p) := (session, pending);
      AppendAll(closing);
      AccountsThen(old(session), old(pending), s, p, session, pending,
                   Arrivals(false, old(phase), source, script, others, cuts, received),
                   Arrivals(true, old(phase), source, script, others, cuts, received),
                   Part(false, phase == Idle, closing), Part(true, phase == Idle, closing));
      match ending {
        case SessionEnded => target.finished := Some(Messages(session));
        case FlushFailed => target.failed := true;
        case SourceLost => target.failed := true;
      }
    }

    /** Handles and forwards events until the session ends, a flush fails or the source is lost. */
    method Pump(source: seq<Event>, target: Target, script: seq<Meanwhile>, others: seq<Others>)
      returns (received: nat, ending: Ending, ghost cuts: seq<nat>)
      requires |others| == |source| && target.pushed == []
      modifies this`phase, this`pending, this`session, this`calls, this`detailCalls, target`pushed
      ensures EndsWith(source, received, ending) && received <= |others|
      ensures Ordered(cuts) && |cuts| == received + 1
      ensures Accounts(old(session), old(pending), session, pending,
                       Arrivals(false, old(phase), source, script, others, cuts, received),
                       Arrivals(true, old(phase), source, script, others, cuts, received))
      ensures var handled := source[..if ending.FlushFailed? then received - 1 else received];
              Told(handlers, detailHandlers, handled, old(calls), calls, old(detailCalls), detailCalls)
      ensures target.pushed == source[..if ending.SourceLost? then received else received - 1]
      ensures ending.SessionEnded? ==>
                received > 0 && phase == Idle && pending == LeftBehind(old(phase), source, others, received)
      ensures ending.FlushFailed? ==> phase == Idle && pending != [] && exists k | 0 <= k < |script| :: !script[k].ok
      ensures ending.SourceLost? ==> phase == PhaseAfter(old(phase), source)
    {
      hide CallsOf, Started, Accounts, Arrived, Told, Part;
      var used := 0;
      cuts := [0];
      received := 0;
      NothingAccounts(session, pending);
      ToldNothing(handlers, detailHandlers, source, calls, detailCalls);
      while received < |source|
        invariant received <= |source| && forall i | 0 <= i < received :: source[i].kind != SESSION_END
        invariant target.pushed == source[..received]
        invariant Ordered(cuts) && |cuts| == received + 1 && cuts[received] == used
        invariant Accounts(old(session), old(pending), session, pending,
                           Arrivals(false, old(phase), source, script, others, cuts, received),
                           Arrivals(true, old(phase), source, script, others, cuts, received))
        invariant phase == PhaseAfter(old(phase), source[..received])
        invariant Told(handlers, detailHandlers, source[..received], old(calls), calls, old(detailCalls), detailCalls)
      {
        var event := source[received];
        PhaseOneMore(old(phase), source, received);
        ToldOneMore(handlers, detailHandlers, source, received, old(calls), calls, old(detailCalls), detailCalls);
        var ok;
        ghost var (s, p) := (session, pending);
        ok, used := HandleEvent(event, others[received], script, used);
        OneMoreArrived(old(phase), source, script, others, cuts, used,
                       old(session), old(pending), s, p, session, pending);
        cuts := cuts + [used];
        received := received + 1;
        if !ok {
          return received, FlushFailed, cuts;
        }
        if event.kind == SESSION_END {
          return received, SessionEnded, cuts;
        }
        target.pushed := target.pushed + [event];
      }
      assert source[..received] == source;
      ending := SourceLost;
    }

    /** The loop body up to the target: phase, flush, phase again, handlers. */
    method HandleEvent(event: Event, others: Others, script: seq<Meanwhile>, from: nat)
      returns (ok: bool, used: nat)
      modifies this`phase, this`pending, this`session, this`calls, this`detailCalls
      ensures from <= used
      ensures EventAccounts(old(session), old(pending), session, pending, old(phase), event.kind,
                            others.before + Pushed(script, from, used), others.window)
      ensures ok ==>
                && phase == (if event.kind == AGENT_SETTLED || event.kind == SESSION_END then Idle
                             else Started(old(phase), event.kind))
                && calls == old(calls) + CallsOf(handlers, event.kind, event.kind)
                && detailCalls == old(detailCalls) + CallsOf(detailHandlers, event.kind, event)
                && (event.kind == TURN_END || event.kind == SESSION_END ==>
                      pending == Part(false, old(phase) == Idle, others.window))
      ensures !ok ==>
                && phase == Idle && pending != [] && (event.kind == TURN_END || event.kind == SESSION_END)
                && calls == old(calls) && detailCalls == old(detailCalls)
                && exists k | 0 <= k < |script| :: !script[k].ok
    {
      hide Accounts;
      AppendAll(others.before);
      used, ok := from, true;
      ghost var (s, p) := (session, pending);
      assert others.before + [] == others.before;
      SetPhase(event.kind);
      if event.kind == TURN_END || event.kind == SESSION_END {
        ok, used := FlushPendingMessages(script, used);
        AccountsForThen(old(session), old(pending), s, p, session, pending, old(phase) == Idle,
                        others.before, Pushed(script, from, used));
      }
      ghost var first := others.before + Pushed(script, from, used);
      ghost var (idle, idle') := (old(phase) == Idle, phase == Idle);
      s, p := session, pending;
      AppendAll(others.window);
      AccountsThen(old(session), old(pending), s, p, session, pending, Part(false, idle, first), Part(true, idle, first),
                   Part(false, idle', others.window), Part(true, idle', others.window));
      if !ok {
        phase := Idle;
        return;
      }
      if event.kind == AGENT_SETTLED || event.kind == SESSION_END {
        phase := Idle;
      }
      Emit(event.kind);
      EmitEvent(event);
    }

    method SetPhase(kind: string)
      modifies this`phase
      ensures phase == Started(old(phase), kind)
    {
      if kind == COMPACTION_START {
        phase := Compaction;
      }
      if kind == RETRY_START {
        phase := Retry;
      }
      if kind == BRANCH_SUMMARY_START {
        phase := BranchSummary;
      }
    }
  }
}
