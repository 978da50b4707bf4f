/**
 Raw mode: one remembered descriptor with its saved settings, and enter and
 restore calls on any descriptors in any order, any system call of which may
 fail.  Settings belong to terminals; several descriptors may share one.
 */
module TermRaw {
  import opened Prelude

  datatype Termios = Termios(
    brkint: bool, icrnl: bool, inpck: bool, istrip: bool, ixon: bool, opost: bool, cs8: bool,
    echo: bool, icanon: bool, iexten: bool, isig: bool, vmin: Byte, vtime: Byte,
    ignbrk: bool, ignpar: bool, parmrk: bool, inlcr: bool, igncr: bool, onlcr: bool, others: int)

  function MakeRaw(t: Termios): Termios {
    t.(brkint := false, icrnl := false, inpck := false, istrip := false, ixon := false, opost := false,
       cs8 := true, echo := false, icanon := false, iexten := false, isig := false, vmin := 1, vtime := 0)
  }

  type Ttys = map<int, Termios>

  /** `terminals` says which terminal a descriptor is open on. */
  datatype State = State(active: bool, fd: int, saved: Termios, terminals: map<int, int>, ttys: Ttys)

  predicate IsTty(s: State, fd: int) { fd in s.terminals && s.terminals[fd] in s.ttys }

  /** tcsetattr on a descriptor. */
  function Set(s: State, fd: int, settings: Termios): State {
    if IsTty(s, fd) then s.(ttys := s.ttys[s.terminals[fd] := settings]) else s
  }

  /** Which system calls of a restore succeed. */
  datatype RestoreEnv = RestoreEnv(flushBefore: bool, apply: bool, flushAfter: bool)

  datatype EnterEnv = EnterEnv(previous: RestoreEnv, read: bool, flushBefore: bool, apply: bool, flushAfter: bool)

  /** A restore; the result says whether it returned 0. */
  function Restore(s: State, fd: int, env: RestoreEnv): (State, bool) {
    if !s.active || s.fd != fd then (s, true) else
    var given := if env.apply then Set(s, fd, s.saved) else s;
    (given.(active := false, fd := -1), env.flushBefore && env.apply && IsTty(s, fd) && env.flushAfter)
  }

  function Enter(s: State, fd: int, env: EnterEnv): (State, bool) {
    if s.active && s.fd == fd then (s, true) else
    var r := if s.active then Restore(s, s.fd, env.previous).0 else s;
    if !env.read || !IsTty(r, fd) then (r, false) else
    var got := r.(saved := r.ttys[r.terminals[fd]]);
    if !env.flushBefore || !env.apply then (got, false) else
    var raw := Set(got, fd, MakeRaw(got.saved));
    if !env.flushAfter then (raw, false) else (raw.(active := true, fd := fd), true)
  }

  datatype Call = EnterRaw(fd: int, enter: EnterEnv) | RestoreRaw(fd: int, restore: RestoreEnv)

  function Perform(s: State, call: Call): State {
    match call
    case EnterRaw(fd, env) => Enter(s, fd, env).0
    case RestoreRaw(fd, env) => Restore(s, fd, env).0
  }

  function Run(s: State, calls: seq<Call>): State
    decreases calls
  {
    if calls == [] then s else Run(Perform(s, calls[0]), calls[1..])
  }

  /** The terminal t is the one of the remembered descriptor. */
  predicate Remembers(s: State, t: int) { s.active && s.fd in s.terminals && s.terminals[s.fd] == t }

  /**
   Every terminal is as it was, except that the one of the remembered
   descriptor, if any, is raw and its original settings are the saved ones.
   */
  ghost predicate InOrder(s: State, orig: Ttys) {
    && s.ttys.Keys == orig.Keys
    && (s.active ==> IsTty(s, s.fd) && s.saved == orig[s.terminals[s.fd]])
    && forall t | t in orig :: s.ttys[t] == if Remembers(s, t) then MakeRaw(orig[t]) else orig[t]
  }

  /**
   The calls that lose a terminal: a restore whose tcsetattr fails, directly
   or when entering on another descriptor, and an enter whose last flush fails
   after the settings were changed.
   */
  predicate Loses(s: State, call: Call) {
    match call
    case RestoreRaw(fd, env) => s.active && s.fd == fd && !env.apply
    case EnterRaw(fd, env) =>
      && !(s.active && s.fd == fd)
      && ((s.active && !env.previous.apply)
          || (env.read && IsTty(s, fd) && env.flushBefore && env.apply && !env.flushAfter))
  }

  predicate NoneLoses(s: State, calls: seq<Call>)
    decreases calls
  {
    calls == [] || (!Loses(s, calls[0]) && NoneLoses(Perform(s, calls[0]), calls[1..]))
  }

  /** Some terminal is raw and nobody knows its original settings any more. */
  ghost predicate Lost(s: State, orig: Ttys) {
    && s.ttys.Keys == orig.Keys
    && exists t :: t in orig && Stuck(s, orig, t)
  }

  ghost predicate Stuck(s: State, orig: Ttys, t: int)
    requires t in orig && s.ttys.Keys == orig.Keys
  {
    s.ttys[t] == MakeRaw(orig[t]) && (Remembers(s, t) ==> s.saved == MakeRaw(orig[t]))
  }

  /** No terminal starts out raw. */
  ghost predicate Cooked(orig: Ttys) { forall f | f in orig :: orig[f] != MakeRaw(orig[f]) }

  lemma RestoreKeepsOrder(s: State, fd: int, env: RestoreEnv, orig: Ttys)
    requires InOrder(s, orig) && !Loses(s, RestoreRaw(fd, env))
    ensures InOrder(Restore(s, fd, env).0, orig)
  {
  }

  lemma StepKeepsOrder(s: State, call: Call, orig: Ttys)
    requires InOrder(s, orig) && !Loses(s, call)
    ensures InOrder(Perform(s, call), orig)
  {
    match call {
      case RestoreRaw(fd, env) => RestoreKeepsOrder(s, fd, env, orig);
      case EnterRaw(fd, env) =>
        if !(s.active && s.fd == fd) {
          var r := if s.active then Restore(s, s.fd, env.previous).0 else s;
          if s.active {
            RestoreKeepsOrder(s, s.fd, env.previous, orig);
          }
          assert InOrder(r, orig) && !r.active;
          EnterKeepsOrder(s, r, fd, env, orig);
        }
    }
  }

  /** An enter from where nothing is remembered. */
  lemma EnterKeepsOrder(s: State, r: State, fd: int, env: EnterEnv, orig: Ttys)
    requires InOrder(r, orig) && !r.active && !(s.active && s.fd == fd) && !Loses(s, EnterRaw(fd, env))
    requires r == if s.active then Restore(s, s.fd, env.previous).0 else s
    ensures InOrder(Enter(s, fd, env).0, orig)
  {
    var t := Enter(s, fd, env).0;
    assert IsTty(r, fd) == IsTty(s, fd);
    if IsTty(r, fd) {
      var own := r.terminals[fd];
      assert own in r.ttys.Keys && own in orig && !Remembers(r, own);
      assert r.ttys[own] == orig[own];
    }
  }

  lemma LosingStep(s: State, call: Call, orig: Ttys)
    requires InOrder(s, orig) && Loses(s, call)
    ensures Lost(Perform(s, call), orig)
  {
    var t := Perform(s, call);
    if call.RestoreRaw? {
      assert Stuck(t, orig, s.terminals[s.fd]);
    } else if s.active && !call.enter.previous.apply {
      assert Stuck(t, orig, s.terminals[s.fd]);
    } else {
      assert Stuck(t, orig, s.terminals[call.fd]);
    }
  }

  lemma LostForGood(s: State, call: Call, orig: Ttys)
    requires Lost(s, orig)
    ensures Lost(Perform(s, call), orig)
  {
    var f :| f in orig && Stuck(s, orig, f);
    match call {
      case RestoreRaw(fd, env) => RestoreKeepsStuck(s, fd, env, orig, f);
      case EnterRaw(fd, env) => EnterKeepsStuck(s, fd, env, orig, f);
    }
  }

  lemma RestoreKeepsStuck(s: State, fd: int, env: RestoreEnv, orig: Ttys, f: int)
    requires s.ttys.Keys == orig.Keys && f in orig && Stuck(s, orig, f)
    ensures Restore(s, fd, env).0.ttys.Keys == orig.Keys && Stuck(Restore(s, fd, env).0, orig, f)
  {
  }

  lemma EnterKeepsStuck(s: State, fd: int, env: EnterEnv, orig: Ttys, f: int)
    requires s.ttys.Keys == orig.Keys && f in orig && Stuck(s, orig, f)
    ensures Enter(s, fd, env).0.ttys.Keys == orig.Keys && Stuck(Enter(s, fd, env).0, orig, f)
  {
    RestoreKeepsStuck(s, s.fd, env.previous, orig, f);
  }

  lemma {:induction false} LostStaysLost(s: State, calls: seq<Call>, orig: Ttys)
    requires Lost(s, orig)
    ensures Lost(Run(s, calls), orig)
    decreases calls
  {
    if calls != [] {
      LostForGood(s, calls[0], orig);
      LostStaysLost(Perform(s, calls[0]), calls[1..], orig);
    }
  }

  lemma OrderedIsNotLost(s: State, orig: Ttys)
    requires InOrder(s, orig) && Cooked(orig)
    ensures !Lost(s, orig)
  {
  }

  /**
   Over every sequence of calls: everything is in order at the end when no call
   lost a terminal, and otherwise one is raw for good; the two exclude each
   other when no terminal was raw to begin with.
   */
  lemma {:induction false} RawModeSafety(s: State, calls: seq<Call>, orig: Ttys)
    requires InOrder(s, orig)
    ensures NoneLoses(s, calls) ==> InOrder(Run(s, calls), orig)
    ensures !NoneLoses(s, calls) ==> Lost(Run(s, calls), orig)
    ensures Cooked(orig) ==> (InOrder(Run(s, calls), orig) <==> NoneLoses(s, calls))
    decreases calls
  {
    if calls != [] {
      if Loses(s, calls[0]) {
        LosingStep(s, calls[0], orig);
        LostStaysLost(Perform(s, calls[0]), calls[1..], orig);
        if InOrder(Run(s, calls), orig) && Cooked(orig) {
          OrderedIsNotLost(Run(s, calls), orig);
        }
      } else {
        StepKeepsOrder(s, calls[0], orig);
        RawModeSafety(Perform(s, calls[0]), calls[1..], orig);
      }
    }
  }

  /** After restoring the remembered descriptor, every terminal has its original settings. */
  lemma RestoreBringsBack(s: State, env: RestoreEnv, orig: Ttys)
    requires InOrder(s, orig)
    ensures var t := Restore(s, s.fd, env).0;
            !Loses(s, RestoreRaw(s.fd, env)) ==> t.ttys == orig && !t.active
  {
    var t := Restore(s, s.fd, env).0;
    if !Loses(s, RestoreRaw(s.fd, env)) {
      assert t.ttys.Keys == orig.Keys;
      assert forall f | f in orig :: t.ttys[f] == orig[f];
    }
  }

  /** The failing enter: it returns an error, is not active, and leaves the terminal raw. */
  lemma FailedEnterLeavesRaw(t: Termios, saved: Termios)
    requires t != MakeRaw(t)
    ensures var orig: Ttys := map[0 := t];
            var (s, ok) := Enter(State(false, -1, saved, map[0 := 0], orig), 0,
                                EnterEnv(RestoreEnv(true, true, true), true, true, true, false));
            !ok && !s.active && s.ttys[0] == MakeRaw(t) != orig[0]
  {
  }

  // ----- the code's static state -----

  class Terminal {
    var active: bool
    var fd: int
    var savedTermios: Termios
    const terminals: map<int, int>
    var ttys: Ttys  // the settings the kernel holds

    function View(): State
      reads this
    {
      State(active, fd, savedTermios, terminals, ttys)
    }

    /** tcsetattr */
    method SetAttributes(nativeFd: int, settings: Termios)
      modifies this`ttys
      ensures View() == Set(old(View()), nativeFd, settings)
    {
      if nativeFd in terminals && terminals[nativeFd] in ttys {
        ttys := ttys[terminals[nativeFd] := settings];
      }
    }

    method RestoreRawMode(nativeFd: int, env: RestoreEnv) returns (ok: bool)
      modifies this
      ensures (View(), ok) == Restore(old(View()), nativeFd, env)
    {
      if !active || fd != nativeFd {
        return true;
      }
      ok := env.flushBefore;
      if env.apply && nativeFd in terminals && terminals[nativeFd] in ttys {
        SetAttributes(nativeFd, savedTermios);
      } else {
        ok := false;
      }
      ok := ok && env.flushAfter;
      active := false;
      fd := -1;
    }

    method EnterRawMode(nativeFd: int, env: EnterEnv) returns (ok: bool)
      modifies this
      ensures (View(), ok) == Enter(old(View()), nativeFd, env)
    {
      if active {
        if fd == nativeFd {
          return true;
        }
        var ignored := RestoreRawMode(fd, env.previous);
      }
      if !env.read || nativeFd !in terminals || terminals[nativeFd] !in ttys {
        return false;
      }
      savedTermios := ttys[terminals[nativeFd]];
      var raw := MakeRaw(savedTermios);
      if !env.flushBefore {
        return false;
      }
      if !env.apply {
        return false;
      }
      SetAttributes(nativeFd, raw);
      if !env.flushAfter {
        return false;
      }
      active := true;
      fd := nativeFd;
      return true;
    }
  }
}
