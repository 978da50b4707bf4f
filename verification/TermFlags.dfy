/**
 Overlapping terminal reads and writes on one descriptor.  Each call reads the
 descriptor flags, adds O_NONBLOCK if it was off, does its I/O and puts the
 flags back; only writes hold the mutex.  A run is any interleaving of the
 steps of any number of calls, with any of the fcntl calls failing.
 */
module TermFlags {
  import opened Prelude

  datatype Flags = Flags(nonblock: bool, others: int)

  function On(f: Flags): Flags { f.(nonblock := true) }

  datatype Phase =
    | Waiting
    | Entered                                   // past the mutex (a read has none)
    | Got(saved: Flags)                         // F_GETFL done
    | Armed(saved: Flags)                       // O_NONBLOCK is on, as far as this call knows
    | Finishing(saved: Flags, nonblocking: bool) // I/O done, and in which mode it really was
    | Leaving(leaked: bool)
    | Finished(leaked: bool)                    // leaked: the restoring F_SETFL failed, reported as an error

  datatype Call = Call(isWrite: bool, phase: Phase)

  datatype World = World(flags: Flags, owner: Option<nat>, calls: seq<Call>)

  function SetPhase(w: World, i: nat, phase: Phase): World {
    if i < |w.calls| then w.(calls := w.calls[i := w.calls[i].(phase := phase)]) else w
  }

  /** The next step of call i; `ok` says whether the fcntl of that step, if any, succeeds. */
  function Step(w: World, i: nat, ok: bool): World {
    if i >= |w.calls| then w else
    match w.calls[i].phase
    case Waiting =>
      if !w.calls[i].isWrite then SetPhase(w, i, Entered)
      else if w.owner.None? then SetPhase(w, i, Entered).(owner := Some(i))
      else w
    case Entered => SetPhase(w, i, if ok then Got(w.flags) else Leaving(false))
    case Got(saved) =>
      if saved.nonblock then SetPhase(w, i, Armed(saved))
      else if ok then SetPhase(w, i, Armed(saved)).(flags := On(saved))
      else SetPhase(w, i, Leaving(false))
    case Armed(saved) => SetPhase(w, i, Finishing(saved, w.flags.nonblock))
    case Finishing(saved, _) =>
      if saved.nonblock then SetPhase(w, i, Leaving(false))
      else if ok then SetPhase(w, i, Leaving(false)).(flags := saved)
      else SetPhase(w, i, Leaving(true))
    case Leaving(leaked) =>
      var done := SetPhase(w, i, Phase.Finished(leaked));
      if w.calls[i].isWrite then done.(owner := None) else done
    case Finished(_) => w
  }

  function Run(w: World, steps: seq<(nat, bool)>): World
    decreases steps
  {
    if steps == [] then w else Run(Step(w, steps[0].0, steps[0].1), steps[1..])
  }

  /** A call that turned O_NONBLOCK on and has not put the flags back yet. */
  predicate InWindow(c: Call) {
    (c.phase.Armed? || c.phase.Finishing?) && !c.phase.saved.nonblock
  }

  predicate HasLeaked(c: Call) { (c.phase.Leaving? || c.phase.Finished?) && c.phase.leaked }

  predicate Idle(w: World) { forall i | 0 <= i < |w.calls| :: w.calls[i].phase.Waiting? }

  /** Whatever a call remembers is the original flags, with or without O_NONBLOCK. */
  predicate Remembers(c: Call, orig: Flags) {
    c.phase.Got? || c.phase.Armed? || c.phase.Finishing? ==>
      c.phase.saved == orig || c.phase.saved == On(orig)
  }

  predicate Responsible(c: Call) { InWindow(c) || HasLeaked(c) }

  ghost predicate Sound(w: World, orig: Flags) {
    && (forall i | 0 <= i < |w.calls| :: Remembers(w.calls[i], orig))
    && (w.flags == orig || (w.flags == On(orig) && exists i :: 0 <= i < |w.calls| && Responsible(w.calls[i])))
  }

  lemma StepIsSound(w: World, i: nat, ok: bool, orig: Flags)
    requires Sound(w, orig)
    ensures Sound(Step(w, i, ok), orig)
  {
    var w' := Step(w, i, ok);
    if i < |w.calls| {
      assert Remembers(w.calls[i], orig);
      if w'.flags != orig {
        if w.flags != orig {
          var k :| 0 <= k < |w.calls| && Responsible(w.calls[k]);
          assert k == i || w'.calls[k] == w.calls[k];
          assert Responsible(w'.calls[k]);
        } else {
          assert Responsible(w'.calls[i]);
        }
      }
    }
  }

  /**
   In every state of every interleaving the flags are the original ones, or
   O_NONBLOCK is on and some call is between its set and its restore, or some
   call's restore failed and said so.
   */
  lemma {:induction false} FlagsNeverLeak(w: World, steps: seq<(nat, bool)>, orig: Flags)
    requires Sound(w, orig)
    ensures var end := Run(w, steps);
            && Sound(end, orig)
            && (end.flags != orig ==> end.flags == On(orig))
            && (end.flags != orig ==> exists i :: 0 <= i < |end.calls| && Responsible(end.calls[i]))
    decreases steps
  {
    if steps != [] {
      StepIsSound(w, steps[0].0, steps[0].1, orig);
      FlagsNeverLeak(Step(w, steps[0].0, steps[0].1), steps[1..], orig);
    }
  }

  predicate AllReturned(w: World) {
    forall i | 0 <= i < |w.calls| :: w.calls[i].phase.Finished? && !w.calls[i].phase.leaked
  }

  /** Once all calls have returned without reporting a failed restore, the flags are the original ones. */
  lemma RestoredAtTheEnd(w: World, steps: seq<(nat, bool)>)
    requires Idle(w) && AllReturned(Run(w, steps))
    ensures Run(w, steps).flags == w.flags
  {
    FlagsNeverLeak(w, steps, w.flags);
  }

  /** No call has come back from a failed restore. */
  predicate NoneLeaked(w: World) { forall i | 0 <= i < |w.calls| :: !HasLeaked(w.calls[i]) }

  lemma {:induction false} SuccessfulStepsDoNotLeak(w: World, steps: seq<(nat, bool)>)
    requires NoneLeaked(w) && forall k | 0 <= k < |steps| :: steps[k].1
    ensures NoneLeaked(Run(w, steps))
    decreases steps
  {
    if steps != [] {
      assert NoneLeaked(Step(w, steps[0].0, true));
      SuccessfulStepsDoNotLeak(Step(w, steps[0].0, steps[0].1), steps[1..]);
    }
  }

  /** While every fcntl call succeeds, the flags differ only when some call is between its set and its restore. */
  lemma ChangedOnlyInsideAWindow(w: World, steps: seq<(nat, bool)>)
    requires Idle(w) && forall k | 0 <= k < |steps| :: steps[k].1
    ensures var end := Run(w, steps);
            end.flags == w.flags ||
            (end.flags == On(w.flags) && exists i :: 0 <= i < |end.calls| && InWindow(end.calls[i]))
  {
    FlagsNeverLeak(w, steps, w.flags);
    SuccessfulStepsDoNotLeak(w, steps);
    var end := Run(w, steps);
    if end.flags != w.flags {
      var i :| 0 <= i < |end.calls| && Responsible(end.calls[i]);
      assert InWindow(end.calls[i]);
    }
  }

  // ----- is the I/O itself non-blocking? -----

  /** With writes only, the mutex keeps every write in non-blocking mode. */
  ghost predicate Exclusive(w: World) {
    && (forall i | 0 <= i < |w.calls| :: w.calls[i].isWrite)
    && (forall i | 0 <= i < |w.calls| && w.owner != Some(i) :: w.calls[i].phase.Waiting? || w.calls[i].phase.Finished?)
    && (forall i | 0 <= i < |w.calls| && w.calls[i].phase.Armed? :: w.flags.nonblock)
    && (forall i | 0 <= i < |w.calls| && w.calls[i].phase.Got? :: w.calls[i].phase.saved == w.flags)
    && (forall i | 0 <= i < |w.calls| && w.calls[i].phase.Finishing? :: w.calls[i].phase.nonblocking)
  }

  lemma StepKeepsExclusive(w: World, i: nat, ok: bool)
    requires Exclusive(w)
    ensures Exclusive(Step(w, i, ok))
  {
  }

  lemma {:induction false} WritesNeverBlock(w: World, steps: seq<(nat, bool)>)
    requires Exclusive(w)
    ensures Exclusive(Run(w, steps))
    ensures forall i | 0 <= i < |Run(w, steps).calls| && Run(w, steps).calls[i].phase.Finishing? ::
              Run(w, steps).calls[i].phase.nonblocking
    decreases steps
  {
    if steps != [] {
      StepKeepsExclusive(w, steps[0].0, steps[0].1);
      WritesNeverBlock(Step(w, steps[0].0, steps[0].1), steps[1..]);
    }
  }

  /** Every call that has done its I/O did it in non-blocking mode. */
  predicate NoneBlocked(w: World) {
    forall i | 0 <= i < |w.calls| && w.calls[i].phase.Finishing? :: w.calls[i].phase.nonblocking
  }

  /** No interleaving lets a call do its I/O in blocking mode. */
  ghost predicate NeverBlocks(w: World) { forall steps :: NoneBlocked(Run(w, steps)) }

  /** With O_NONBLOCK on from the start, nobody ever changes the flags. */
  predicate AlreadyOn(w: World) {
    && w.flags.nonblock && NoneBlocked(w)
    && forall i | 0 <= i < |w.calls| :: Remembers(w.calls[i], w.flags)
  }

  lemma {:induction false} AlreadyOnNeverBlocks(w: World, steps: seq<(nat, bool)>)
    requires AlreadyOn(w)
    ensures NoneBlocked(Run(w, steps))
    decreases steps
  {
    if steps != [] {
      assert On(w.flags) == w.flags;
      assert AlreadyOn(Step(w, steps[0].0, steps[0].1));
      AlreadyOnNeverBlocks(Step(w, steps[0].0, steps[0].1), steps[1..]);
    }
  }

  /** A call on its own sees the flags it set. */
  predicate Alone(w: World) {
    && |w.calls| <= 1 && NoneBlocked(w)
    && forall i | 0 <= i < |w.calls| ::
         && (w.calls[i].phase.Got? ==> w.calls[i].phase.saved == w.flags)
         && (w.calls[i].phase.Armed? ==> w.flags.nonblock)
  }

  lemma {:induction false} AloneNeverBlocks(w: World, steps: seq<(nat, bool)>)
    requires Alone(w)
    ensures NoneBlocked(Run(w, steps))
    decreases steps
  {
    if steps != [] {
      assert Alone(Step(w, steps[0].0, steps[0].1));
      AloneNeverBlocks(Step(w, steps[0].0, steps[0].1), steps[1..]);
    }
  }

  /**
   The overlap that blocks: `other` turns O_NONBLOCK on, the read sees it on and
   leaves it alone, `other` turns it off again, and the read is done in
   blocking mode.
   */
  lemma OverlapCanBlock(w: World, read: nat, other: nat) returns (steps: seq<(nat, bool)>)
    requires Idle(w) && w.owner.None? && !w.flags.nonblock
    requires read < |w.calls| && other < |w.calls| && read != other && !w.calls[read].isWrite
    ensures !NoneBlocked(Run(w, steps))
  {
    var v;
    v, steps := ReadSeesOthersFlag(w, read, other);
    v, steps := Advance(w, v, steps, other);
    v, steps := Advance(w, v, steps, other);
    assert v.flags == w.flags;
    v, steps := Advance(w, v, steps, read);
    v, steps := Advance(w, v, steps, read);
    assert v.calls[read].phase == Finishing(On(w.flags), false);
  }

  /** The other call has O_NONBLOCK on when the read looks at the flags. */
  lemma ReadSeesOthersFlag(w: World, read: nat, other: nat) returns (v: World, steps: seq<(nat, bool)>)
    requires Idle(w) && w.owner.None? && !w.flags.nonblock
    requires read < |w.calls| && other < |w.calls| && read != other && !w.calls[read].isWrite
    ensures Run(w, steps) == v && |v.calls| == |w.calls| && v.flags == On(w.flags)
    ensures v.calls[other] == w.calls[other].(phase := Armed(w.flags))
    ensures v.calls[read] == w.calls[read].(phase := Got(On(w.flags)))
  {
    v, steps := w, [];
    v, steps := Advance(w, v, steps, other);
    v, steps := Advance(w, v, steps, other);
    v, steps := Advance(w, v, steps, other);
    assert v.calls[read] == w.calls[read];
    v, steps := Advance(w, v, steps, read);
    v, steps := Advance(w, v, steps, read);
  }

  /**
   Exactly when I/O never blocks: O_NONBLOCK was on to begin with, or there is
   only one call, or no call is a read.
   */
  lemma NeverBlocksIff(w: World)
    requires Idle(w) && w.owner.None?
    ensures NeverBlocks(w) <==>
            w.flags.nonblock || |w.calls| <= 1 || forall i | 0 <= i < |w.calls| :: w.calls[i].isWrite
  {
    if w.flags.nonblock {
      forall steps ensures NoneBlocked(Run(w, steps)) {
        AlreadyOnNeverBlocks(w, steps);
      }
    } else if |w.calls| <= 1 {
      forall steps ensures NoneBlocked(Run(w, steps)) {
        AloneNeverBlocks(w, steps);
      }
    } else if read: nat :| read < |w.calls| && !w.calls[read].isWrite {
      var steps := OverlapCanBlock(w, read, if read == 0 then 1 else 0);
    } else {
      forall steps ensures NoneBlocked(Run(w, steps)) {
        WritesNeverBlock(w, steps);
      }
    }
  }

  /** One more step of call i at the end of a run. */
  lemma Advance(start: World, w: World, steps: seq<(nat, bool)>, i: nat)
    returns (w': World, longer: seq<(nat, bool)>)
    requires Run(start, steps) == w
    ensures w' == Step(w, i, true) && Run(start, longer) == w'
  {
    w', longer := Step(w, i, true), steps + [(i, true)];
    RunSnoc(start, steps, (i, true));
  }

  lemma {:induction false} RunSnoc(w: World, steps: seq<(nat, bool)>, last: (nat, bool))
    ensures Run(w, steps + [last]) == Step(Run(w, steps), last.0, last.1)
    decreases steps
  {
    if steps == [] {
      assert steps + [last] == [last];
      assert Run(Step(w, last.0, last.1), [last][1..]) == Step(w, last.0, last.1);
    } else {
      assert (steps + [last])[1..] == steps[1..] + [last];
      RunSnoc(Step(w, steps[0].0, steps[0].1), steps[1..], last);
    }
  }

  // ----- one write call, alone -----

  type Positive = e: int | e > 0 witness 1

  datatype Attempt = Count(n: nat) | Interrupted | WouldBlock | Failure(errno: Positive)

  const RETRIES := 16

  /** Bytes written, 0 when the buffer is full, -errno otherwise. */
  function Classify(a: Attempt): int {
    match a
    case Count(n) => n
    case WouldBlock => 0
    case Failure(e) => 0 - e
    case Interrupted => -4
  }

  /**
   The retry loop of a write: an interrupted attempt is repeated at most 16
   times, and the first attempt that is not repeated decides the result.
   */
  method WriteWithRetries(attempts: seq<Attempt>) returns (result: int, used: nat)
    requires |attempts| > RETRIES
    ensures 1 <= used <= RETRIES + 1
    ensures forall k | 0 <= k < used - 1 :: attempts[k].Interrupted?
    ensures used <= RETRIES ==> !attempts[used - 1].Interrupted?
    ensures result == Classify(attempts[used - 1])
    ensures match attempts[used - 1]
            case Count(n) => result == n
            case WouldBlock => result == 0
            case Failure(errno) => result == 0 - errno && result < 0
            case Interrupted => result == -4 && used == 17
  {
    var retries := 0;
    var last;
    while true
      invariant 0 <= retries <= RETRIES
      invariant forall k | 0 <= k < retries :: attempts[k].Interrupted?
      decreases RETRIES - retries
    {
      last := attempts[retries];
      if last.Interrupted? && retries < RETRIES {
        retries := retries + 1;
      } else {
        break;
      }
    }
    used := retries + 1;
    result := Classify(last);
  }
}
