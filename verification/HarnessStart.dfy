/**
 Overlapping starts.  prompt, compact and navigate_tree_with_summary look at
 the phase, and set it in a later step without a lock in between.
 */
module HarnessStart {
  /** One start: before it looks at the phase, after an idle look, begun, or refused. */
  datatype Start = Asked | Allowed | Begun | Refused

  datatype World = World(busy: bool, starts: seq<Start>)

  function Step(w: World, i: nat): World {
    if i >= |w.starts| then w else
    match w.starts[i]
    case Asked => w.(starts := w.starts[i := if w.busy then Refused else Allowed])
    case Allowed => World(true, w.starts[i := Begun])
    case _ => w
  }

  function Run(w: World, steps: seq<nat>): World
    decreases steps
  {
    if steps == [] then w else Run(Step(w, steps[0]), steps[1..])
  }

  predicate AllAsked(w: World) { forall i | 0 <= i < |w.starts| :: w.starts[i] == Asked }

  predicate IsIn(s: Start) { s == Allowed || s == Begun }

  /** Two starts run at once. */
  predicate TwoBegun(w: World) {
    exists i, j :: 0 <= i < j < |w.starts| && w.starts[i] == Begun && w.starts[j] == Begun
  }

  /** No interleaving of the starts lets two of them begin. */
  ghost predicate Exclusive(w: World) { forall steps :: !TwoBegun(Run(w, steps)) }

  lemma {:induction false} RefusedWhenBusy(w: World, steps: seq<nat>)
    requires w.busy && forall i | 0 <= i < |w.starts| :: !IsIn(w.starts[i])
    ensures !TwoBegun(Run(w, steps))
    decreases steps
  {
    if steps != [] {
      RefusedWhenBusy(Step(w, steps[0]), steps[1..]);
    }
  }

  lemma {:induction false} AloneIsExclusive(w: World, steps: seq<nat>)
    requires |w.starts| <= 1
    ensures !TwoBegun(Run(w, steps))
    decreases steps
  {
    if steps != [] {
      AloneIsExclusive(Step(w, steps[0]), steps[1..]);
    }
  }

  /** Both look before either sets the phase. */
  lemma BothBegin(w: World)
    requires AllAsked(w) && !w.busy && |w.starts| >= 2
    ensures TwoBegun(Run(w, [0, 1, 0, 1]))
  {
    var (w1, w2) := (Step(w, 0), Step(Step(w, 0), 1));
    var (w3, w4) := (Step(w2, 0), Step(Step(w2, 0), 1));
    assert [0, 1, 0, 1][1..] == [1, 0, 1] && [1, 0, 1][1..] == [0, 1] && [0, 1][1..] == [1] && [1][1..] == [];
    assert Run(w4, []) == w4 && Run(w3, [1]) == w4 && Run(w2, [0, 1]) == w4 && Run(w1, [1, 0, 1]) == w4;
    assert w4.starts[0] == Begun && w4.starts[1] == Begun;
  }

  /** Overlapping starts exclude each other exactly when the harness is busy already, or there is only one of them. */
  lemma StartsExcludeEachOtherIff(w: World)
    requires AllAsked(w)
    ensures Exclusive(w) <==> w.busy || |w.starts| <= 1
  {
    if w.busy {
      forall steps ensures !TwoBegun(Run(w, steps)) {
        RefusedWhenBusy(w, steps);
      }
    } else if |w.starts| <= 1 {
      forall steps ensures !TwoBegun(Run(w, steps)) {
        AloneIsExclusive(w, steps);
      }
    } else {
      BothBegin(w);
    }
  }
}
