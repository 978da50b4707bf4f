/**
 The phase of the harness over whole runs of events, by the names of the events:
 which event decides it, that it cannot become idle in mid-run, and what that
 means for messages and starts.
 */
module HarnessPhases {
  import opened Prelude
  import opened HarnessSession
  import opened Harness

  /** An event that ends the run as far as the phase goes. */
  predicate Settles(kind: string) { kind == "agent_settled" || kind == "session_end" }

  /** An event that announces work of another kind. */
  predicate Announces(kind: string) {
    kind == "compaction_start" || kind == "auto_retry_start" || kind == "branch_summary_start"
  }

  /** Nothing in the run settles. */
  predicate MidRun(events: seq<Event>) { forall i | 0 <= i < |events| :: !Settles(events[i].kind) }

  /** From event i on nothing settles or announces. */
  predicate PlainFrom(events: seq<Event>, i: nat) {
    forall j | i <= j < |events| :: !Settles(events[j].kind) && !Announces(events[j].kind)
  }

  /** Events that neither settle nor announce leave the phase as it was. */
  lemma {:induction false} PlainKeepsPhase(phase: Phase, events: seq<Event>, i: nat)
    requires i <= |events| && PlainFrom(events, i)
    ensures PhaseAfter(phase, events) == PhaseAfter(phase, events[..i])
    decreases |events| - i
  {
    if i == |events| {
      assert events[..i] == events;
    } else {
      var init := events[..|events| - 1];
      forall j | i <= j < |init| ensures !Settles(init[j].kind) && !Announces(init[j].kind) {
        assert init[j] == events[j];
      }
      PlainKeepsPhase(phase, init, i);
      assert init[..i] == events[..i];
    }
  }

  /** The last event that settles or announces decides the phase, by its name. */
  lemma {:induction false} LastDecides(phase: Phase, events: seq<Event>, i: nat)
    requires i < |events| && PlainFrom(events, i + 1)
    ensures events[i].kind == "compaction_start" ==> PhaseAfter(phase, events) == Compaction
    ensures events[i].kind == "auto_retry_start" ==> PhaseAfter(phase, events) == Retry
    ensures events[i].kind == "branch_summary_start" ==> PhaseAfter(phase, events) == BranchSummary
    ensures events[i].kind == "agent_settled" || events[i].kind == "session_end" ==> PhaseAfter(phase, events) == Idle
  {
    PlainKeepsPhase(phase, events, i + 1);
    PhaseOneMore(phase, events, i);
  }

  /** With none of them, the phase is the first one. */
  lemma {:induction false} NoneDecides(phase: Phase, events: seq<Event>)
    requires PlainFrom(events, 0)
    ensures PhaseAfter(phase, events) == phase
  {
    PlainKeepsPhase(phase, events, 0);
    assert events[..0] == [];
  }

  /** Either nothing settles or announces, or there is a last such event. */
  lemma {:induction false} LastOne(events: seq<Event>) returns (last: Option<nat>)
    ensures last.None? ==> PlainFrom(events, 0)
    ensures last.Some? ==> last.value < |events| && PlainFrom(events, last.value + 1)
    ensures last.Some? ==> Settles(events[last.value].kind) || Announces(events[last.value].kind)
    decreases events
  {
    if events == [] {
      return None;
    }
    var n := |events| - 1;
    if Settles(events[n].kind) || Announces(events[n].kind) {
      return Some(n);
    }
    last := LastOne(events[..n]);
    forall j | (if last.None? then 0 else last.value + 1) <= j < |events|
      ensures !Settles(events[j].kind) && !Announces(events[j].kind)
    {
      assert j < n ==> events[..n][j] == events[j];
    }
    assert last.Some? ==> events[..n][last.value] == events[last.value];
  }

  /** The harness is idle after some events exactly when the last that matters settles, or none does and it was idle before. */
  lemma {:induction false} IdleIff(phase: Phase, events: seq<Event>)
    ensures PhaseAfter(phase, events) == Idle <==>
            || (PlainFrom(events, 0) && phase == Idle)
            || exists i: nat :: i < |events| && Settles(events[i].kind) && PlainFrom(events, i + 1)
  {
    var last := LastOne(events);
    if last.None? {
      NoneDecides(phase, events);
    } else {
      LastDecides(phase, events, last.value);
    }
    if i: nat :| i < |events| && Settles(events[i].kind) && PlainFrom(events, i + 1) {
      LastDecides(phase, events, i);
    }
  }

  /** A busy harness stays busy through a run in which nothing settles. */
  lemma {:induction false} StaysBusy(phase: Phase, events: seq<Event>)
    requires phase != Idle && MidRun(events)
    ensures PhaseAfter(phase, events) != Idle
  {
    IdleIff(phase, events);
  }

  /** All the messages others append around the first n events, in order. */
  function AllAppended(script: seq<Meanwhile>, others: seq<Others>, cuts: seq<nat>, n: nat): seq<Message>
    requires Ordered(cuts) && n < |cuts| && n <= |others|
  {
    if n == 0 then [] else
    AllAppended(script, others, cuts, n - 1)
    + (others[n - 1].before + Pushed(script, cuts[n - 1], cuts[n]) + others[n - 1].window)
  }

  /** In mid-run nothing gets into the session directly: everything others append is queued. */
  lemma {:induction false} EverythingIsQueued(phase: Phase, source: seq<Event>, script: seq<Meanwhile>,
                                              others: seq<Others>, cuts: seq<nat>, n: nat)
    requires Ordered(cuts) && n < |cuts| && n <= |others| && n <= |source|
    requires phase != Idle && MidRun(source)
    ensures Arrivals(true, phase, source, script, others, cuts, n) == []
    ensures Arrivals(false, phase, source, script, others, cuts, n) == AllAppended(script, others, cuts, n)
    decreases n
  {
    hide PhaseAfter, Started, Pushed;
    if n > 0 {
      EverythingIsQueued(phase, source, script, others, cuts, n - 1);
      MidRunPrefix(source, n - 1);
      MidRunPrefix(source, n);
      StaysBusy(phase, source[..n - 1]);
      StaysBusy(phase, source[..n]);
      PhaseOneMore(phase, source, n - 1);
    }
  }

  lemma MidRunPrefix(events: seq<Event>, n: nat)
    requires n <= |events| && MidRun(events)
    ensures MidRun(events[..n])
    ensures n > 0 ==> events[n - 1].kind != AGENT_SETTLED && events[n - 1].kind != SESSION_END
  {
    assert n > 0 ==> !Settles(events[n - 1].kind);
  }

  /** The last event in mid-run that announces other work, if any, names the phase. */
  predicate NamedBy(first: Phase, phase: Phase, events: seq<Event>) {
    && (PlainFrom(events, 0) ==> phase == first)
    && forall i | 0 <= i < |events| && PlainFrom(events, i + 1) ::
         && (events[i].kind == "compaction_start" ==> phase == Compaction)
         && (events[i].kind == "auto_retry_start" ==> phase == Retry)
         && (events[i].kind == "branch_summary_start" ==> phase == BranchSummary)
  }

  lemma {:induction false} PhaseIsNamed(first: Phase, events: seq<Event>)
    ensures NamedBy(first, PhaseAfter(first, events), events)
  {
    if PlainFrom(events, 0) {
      NoneDecides(first, events);
    }
    forall i | 0 <= i < |events| && PlainFrom(events, i + 1)
      ensures events[i].kind == "compaction_start" ==> PhaseAfter(first, events) == Compaction
      ensures events[i].kind == "auto_retry_start" ==> PhaseAfter(first, events) == Retry
      ensures events[i].kind == "branch_summary_start" ==> PhaseAfter(first, events) == BranchSummary
    {
      LastDecides(first, events, i);
    }
  }

  /**
   A busy harness handles a run in which nothing settles and no append of its own
   fails; then someone appends a message, and someone asks for a start.  All
   that others appended is accounted for by the queue, the message joins it,
   the start is refused, and the phase is the one last announced.
   */
  method AppendInMidRun(h: AgentHarness, target: Target, source: seq<Event>, script: seq<Meanwhile>,
                        others: seq<Others>, m: Message, next: Phase)
    returns (ok: bool, ghost cuts: seq<nat>)
    requires h.phase != Idle && MidRun(source) && next != Idle
    requires |others| == |source| && target.pushed == [] && forall k | 0 <= k < |script| :: script[k].ok
    modifies h`phase, h`pending, h`session, h`calls, h`detailCalls, target`pushed
    ensures !ok && h.phase != Idle && NamedBy(old(h.phase), h.phase, source)
    ensures Direct(h.session) == Direct(old(h.session)) && h.pending != [] && h.pending[|h.pending| - 1] == m
    ensures Ordered(cuts) && |cuts| == |source| + 1
    ensures Delivered(h.session) + h.pending ==
            Delivered(old(h.session)) + old(h.pending) + AllAppended(script, others, cuts, |source|) + [m]
    ensures target.pushed == source
  {
    hide PhaseAfter, Arrivals, Received, Told, AllAppended, Pushed;
    var received, ending;
    received, ending, cuts := h.Pump(source, target, script, others);
    assert !ending.SessionEnded? by {
      assert received > 0 ==> !Settles(source[received - 1].kind);
    }
    assert source[..received] == source;
    StaysBusy(old(h.phase), source);
    PhaseIsNamed(old(h.phase), source);
    EverythingIsQueued(old(h.phase), source, script, others, cuts, received);
    ghost var before := h.pending;
    h.AppendMessage(m);
    ok := h.Begin(next);
    ConcatAssociative(Delivered(h.session), before, [m]);
  }

  /** How a bridge may end, by the names of the events. */
  lemma EndingsByName(source: seq<Event>, received: nat, ending: Ending)
    requires EndsWith(source, received, ending)
    ensures forall i | 0 <= i < received - 1 :: source[i].kind != "session_end"
    ensures ending.SessionEnded? ==> received > 0 && source[received - 1].kind == "session_end"
    ensures ending.FlushFailed? ==>
              received > 0 && (source[received - 1].kind == "turn_end" || source[received - 1].kind == "session_end")
    ensures ending.SourceLost? ==> received == |source| && forall i | 0 <= i < received :: source[i].kind != "session_end"
  {
  }

  // ----- one event -----

  /** What one event does to the phase, by its name. */
  method OneEvent(h: AgentHarness, event: Event, others: Others, script: seq<Meanwhile>)
    requires forall k | 0 <= k < |script| :: script[k].ok
    modifies h`phase, h`pending, h`session, h`calls, h`detailCalls
    ensures event.kind == "compaction_start" ==> h.phase == Compaction
    ensures event.kind == "auto_retry_start" ==> h.phase == Retry
    ensures event.kind == "branch_summary_start" ==> h.phase == BranchSummary
    ensures event.kind == "agent_settled" || event.kind == "session_end" ==> h.phase == Idle
    ensures !Settles(event.kind) && !Announces(event.kind) ==> h.phase == old(h.phase)
    ensures event.kind == "turn_end" || event.kind == "session_end" ==>
              h.pending == if old(h.phase) == Idle then [] else others.window
  {
    var ok, used := h.HandleEvent(event, others, script, 0);
  }
}
