/**
 What the settings of a terminal mean for bytes: a line discipline after
 chapter 11, General Terminal Interface, of POSIX.1-2017, and what raw mode makes of it.
 */
module TermLine {
  import opened Prelude
  import opened TermRaw

  const CR: Byte := 0x0D
  const LF: Byte := 0x0A

  /** The special characters; None is a disabled one. */
  datatype Keys = Keys(
    intr: Option<Byte>, quit: Option<Byte>, susp: Option<Byte>, start: Option<Byte>, stop: Option<Byte>,
    eof: Option<Byte>, erase: Option<Byte>, lnext: Option<Byte>)

  const NO_KEYS: Keys := Keys(None, None, None, None, None, None, None, None)

  datatype Signal = Interrupt | Quit | Suspend

  /** A byte, a byte with a parity error, or a break on the line. */
  datatype Arrival = Typed(b: Byte) | Garbled(b: Byte) | Break

  /** `queue` can be read; `edited` is a line that has not ended; `literal` says the next byte is taken as it is. */
  datatype Line = Line(
    settings: Termios, keys: Keys, queue: seq<Byte>, edited: seq<Byte>, literal: bool, stopped: bool,
    echoed: seq<Byte>, signals: seq<Signal>)

  function Echo(l: Line, bytes: seq<Byte>): Line {
    if l.settings.echo then l.(echoed := l.echoed + bytes) else l
  }

  /** Bytes that are input: readable at once, or part of the line. */
  function Accept(l: Line, bytes: seq<Byte>): Line {
    if l.settings.icanon then Echo(l, bytes).(edited := l.edited + bytes)
    else Echo(l, bytes).(queue := l.queue + bytes)
  }

  /** Sections 11.1.6 and 11.1.9: lines become readable when they end. */
  function Edit(l: Line, c: Byte): Line {
    if Some(c) == l.keys.eof then l.(queue := l.queue + l.edited, edited := [])
    else if Some(c) == l.keys.erase then l.(edited := l.edited[..Max(|l.edited| - 1, 0)])
    else if c == LF then Echo(l, [LF]).(queue := l.queue + l.edited + [LF], edited := [])
    else Accept(l, [c])
  }

  function SignalOf(l: Line, c: Byte): Option<Signal> {
    if Some(c) == l.keys.intr then Some(Interrupt)
    else if Some(c) == l.keys.quit then Some(Quit)
    else if Some(c) == l.keys.susp then Some(Suspend)
    else None
  }

  /** A signal discards the input. */
  function Raise(l: Line, signal: Signal): Line {
    l.(queue := [], edited := [], signals := l.signals + [signal])
  }

  /** The carriage return and newline mappings of section 11.2.2, then the line. */
  function Map(l: Line, c: Byte): Line {
    var t := l.settings;
    if c == CR && t.igncr then l else
    var d := if c == CR && t.icrnl then LF else if c == LF && t.inlcr then CR else c;
    if t.icanon then Edit(l, d) else Accept(l, [d])
  }

  /** One character; IEXTEN brings the literal-next character. */
  function Take(l: Line, c: Byte): Line {
    var t := l.settings;
    if l.literal then Accept(l.(literal := false), [c])
    else if t.iexten && Some(c) == l.keys.lnext then l.(literal := true)
    else if t.isig && SignalOf(l, c).Some? then Raise(l, SignalOf(l, c).value)
    else if t.ixon && Some(c) == l.keys.stop then l.(stopped := true)
    else if t.ixon && Some(c) == l.keys.start then l.(stopped := false)
    else Map(l, c)
  }

  /** Bytes in error are marked. */
  predicate Marks(t: Termios) { t.parmrk && !t.ignpar }

  function TakeByte(l: Line, b: Byte): Line {
    var t := l.settings;
    var c := if t.istrip || !t.cs8 then b % 0x80 else b;
    if c == 0xFF && Marks(t) then Accept(l, [0xFF, 0xFF]) else Take(l, c)
  }

  function Receive(l: Line, a: Arrival): Line {
    var t := l.settings;
    match a
    case Typed(b) => TakeByte(l, b)
    case Garbled(b) =>
      if !t.inpck then TakeByte(l, b)
      else if t.ignpar then l
      else if t.parmrk then Accept(l, [0xFF, 0, b])
      else Accept(l, [0])
    case Break =>
      if t.ignbrk then l
      else if t.brkint then Raise(l, Interrupt)
      else Accept(l, if Marks(t) then [0xFF, 0, 0] else [0])
  }

  function ReceiveAll(l: Line, arrivals: seq<Arrival>): Line
    decreases arrivals
  {
    if arrivals == [] then l else ReceiveAll(Receive(l, arrivals[0]), arrivals[1..])
  }

  /**
   Section 11.1.7: whether a read of at least one byte returns, with these bytes
   readable, and the timer run out or not.
   */
  predicate Returns(t: Termios, queue: seq<Byte>, expired: bool) {
    if t.icanon then queue != []
    else if t.vmin == 0 then queue != [] || t.vtime == 0 || expired
    else |queue| >= t.vmin || (queue != [] && t.vtime > 0 && expired)
  }

  /** What reaches the line for one byte written. */
  function Sent(t: Termios, b: Byte): seq<Byte> {
    if t.opost && t.onlcr && b == LF then [CR, LF] else [b]
  }

  // ----- transparency -----

  predicate IsByte(a: Arrival) { !a.Break? }

  function ByteOf(a: Arrival): Byte { if a.Break? then 0 else a.b }

  function BytesOf(arrivals: seq<Arrival>): (bytes: seq<Byte>)
    ensures |bytes| == |arrivals|
  {
    seq(|arrivals|, i requires 0 <= i < |arrivals| => ByteOf(arrivals[i]))
  }

  /**
   Whatever the special characters: bytes can be read as they came, at once, with
   no echo, no signal and no stop; a break signals nothing; a read returns
   exactly when there is something to read; and bytes written are sent as they are.
   */
  ghost predicate Transparent(t: Termios) {
    && (forall l: Line, arrivals: seq<Arrival> |
          l.settings == t && !l.literal && forall i | 0 <= i < |arrivals| :: IsByte(arrivals[i]) ::
          ReceiveAll(l, arrivals) == l.(queue := l.queue + BytesOf(arrivals)))
    && (forall l: Line | l.settings == t :: Receive(l, Break).signals == l.signals)
    && (forall queue, expired :: Returns(t, queue, expired) <==> queue != [])
    && forall b: Byte :: Sent(t, b) == [b]
  }

  /** The settings that transparency takes. */
  predicate IsClear(t: Termios) {
    && !t.istrip && t.cs8 && !t.icrnl && !t.inlcr && !t.igncr && !Marks(t) && !t.inpck
    && !t.ixon && !t.isig && !t.iexten && !t.icanon && !t.echo
    && (t.ignbrk || !t.brkint) && t.vmin == 1 && !(t.opost && t.onlcr)
  }

  lemma ClearReceives(l: Line, a: Arrival)
    requires IsClear(l.settings) && !l.literal && IsByte(a)
    ensures Receive(l, a) == l.(queue := l.queue + [a.b])
  {
  }

  lemma {:induction false} ClearReceivesAll(l: Line, arrivals: seq<Arrival>)
    requires IsClear(l.settings) && !l.literal && forall i | 0 <= i < |arrivals| :: IsByte(arrivals[i])
    ensures ReceiveAll(l, arrivals) == l.(queue := l.queue + BytesOf(arrivals))
    decreases arrivals
  {
    hide Receive, IsClear;
    if arrivals == [] {
      assert l.queue + BytesOf(arrivals) == l.queue;
    } else {
      assert IsByte(arrivals[0]);
      ClearReceives(l, arrivals[0]);
      ClearReceivesAll(l.(queue := l.queue + [arrivals[0].b]), arrivals[1..]);
      assert l.queue + [arrivals[0].b] + BytesOf(arrivals[1..]) == l.queue + BytesOf(arrivals);
    }
  }

  function Fresh(t: Termios, keys: Keys): Line { Line(t, keys, [], [], false, false, [], []) }

  lemma OneByte(t: Termios, keys: Keys, a: Arrival)
    requires Transparent(t) && IsByte(a)
    ensures Receive(Fresh(t, keys), a) == Fresh(t, keys).(queue := [a.b])
    ensures var q := Receive(Fresh(t, keys), a).queue; |q| == 1 && q[0] == a.b
  {
    var l := Fresh(t, keys);
    assert [a][1..] == [];
    assert ReceiveAll(l, [a]) == Receive(l, a);
    assert BytesOf([a]) == [a.b];
    assert l.queue + [a.b] == [a.b];
  }

  lemma WholeBytes(t: Termios)
    requires Transparent(t)
    ensures !t.istrip && t.cs8 && !t.icanon && !t.echo
  {
    hide Transparent;
    OneByte(t, NO_KEYS, Typed(0xC1));
  }

  lemma MappedBytes(t: Termios)
    requires Transparent(t) && !t.icanon
    ensures !t.icrnl && !t.inlcr && !t.igncr
  {
    hide Transparent, Edit;
    OneByte(t, NO_KEYS, Typed(CR));
    OneByte(t, NO_KEYS, Typed(LF));
  }

  lemma MarkedBytes(t: Termios)
    requires Transparent(t) && !t.icanon && !t.istrip && t.cs8
    ensures !t.inpck && !Marks(t)
  {
    hide Transparent, Take;
    OneByte(t, NO_KEYS, Garbled(0x41));
    OneByte(t, NO_KEYS, Typed(0xFF));
  }

  lemma KeyFlags(t: Termios)
    requires Transparent(t)
    ensures !t.ixon && !t.isig && !t.iexten
  {
    hide Transparent;
    OneByte(t, NO_KEYS.(stop := Some(0x13)), Typed(0x13));
    OneByte(t, NO_KEYS.(intr := Some(0x03)), Typed(0x03));
    OneByte(t, NO_KEYS.(lnext := Some(0x16)), Typed(0x16));
  }

  lemma OtherFlags(t: Termios)
    requires Transparent(t) && !t.icanon
    ensures (t.ignbrk || !t.brkint) && t.vmin == 1 && !(t.opost && t.onlcr)
  {
    assert Receive(Fresh(t, NO_KEYS), Break).signals == [];
    assert !Returns(t, [], true) && Returns(t, [0x41], false);
    assert Sent(t, LF) == [LF];
  }

  /** Every one of these settings is needed, and together they are enough. */
  lemma TransparentIff(t: Termios)
    ensures Transparent(t) <==> IsClear(t)
  {
    if Transparent(t) {
      WholeBytes(t);
      MappedBytes(t);
      MarkedBytes(t);
      KeyFlags(t);
      OtherFlags(t);
    }
    if IsClear(t) {
      forall l: Line, arrivals: seq<Arrival> |
        l.settings == t && !l.literal && forall i | 0 <= i < |arrivals| :: IsByte(arrivals[i])
        ensures ReceiveAll(l, arrivals) == l.(queue := l.queue + BytesOf(arrivals))
      {
        ClearReceivesAll(l, arrivals);
      }
    }
  }

  /**
   Raw mode leaves three settings alone that change bytes, so it is transparent
   exactly when they were off: INLCR, IGNCR, and PARMRK without IGNPAR.
   */
  lemma RawIsTransparentIff(t: Termios)
    ensures Transparent(MakeRaw(t)) <==> !t.inlcr && !t.igncr && !(t.parmrk && !t.ignpar)
  {
    TransparentIff(MakeRaw(t));
  }

  /** For instance, with INLCR on, the newline of a raw terminal still reads as a carriage return. */
  lemma NewlineReadsAsReturn(t: Termios, keys: Keys)
    requires t.inlcr
    ensures Receive(Fresh(MakeRaw(t), keys), Typed(LF)).queue == [CR]
  {
    assert [] + [CR] == [CR];
  }

  /** None of the settings raw mode changes could be left as it was found. */
  lemma EachChangeMatters(t: Termios)
    requires t.istrip && !t.cs8 && t.icrnl && t.inpck && t.ixon && t.isig && t.iexten && t.icanon && t.echo
    requires t.brkint && !t.ignbrk && t.opost && t.onlcr && t.vmin != 1
    ensures var r := MakeRaw(t);
            && !Transparent(r.(istrip := t.istrip)) && !Transparent(r.(cs8 := t.cs8))
            && !Transparent(r.(icrnl := t.icrnl)) && !Transparent(r.(inpck := t.inpck))
            && !Transparent(r.(ixon := t.ixon)) && !Transparent(r.(isig := t.isig))
            && !Transparent(r.(iexten := t.iexten)) && !Transparent(r.(icanon := t.icanon))
            && !Transparent(r.(echo := t.echo)) && !Transparent(r.(brkint := t.brkint))
            && !Transparent(r.(opost := t.opost)) && !Transparent(r.(vmin := t.vmin))
  {
    hide Transparent;
    var r := MakeRaw(t);
    TransparentIff(r.(istrip := t.istrip));
    TransparentIff(r.(cs8 := t.cs8));
    TransparentIff(r.(icrnl := t.icrnl));
    TransparentIff(r.(inpck := t.inpck));
    TransparentIff(r.(ixon := t.ixon));
    TransparentIff(r.(isig := t.isig));
    TransparentIff(r.(iexten := t.iexten));
    TransparentIff(r.(icanon := t.icanon));
    TransparentIff(r.(echo := t.echo));
    TransparentIff(r.(brkint := t.brkint));
    TransparentIff(r.(opost := t.opost));
    TransparentIff(r.(vmin := t.vmin));
  }

  /** What raw mode does not touch; a timer it sets to none. */
  predicate SameElsewhere(t: Termios, r: Termios) {
    && r.ignbrk == t.ignbrk && r.ignpar == t.ignpar && r.parmrk == t.parmrk && r.inlcr == t.inlcr && r.igncr == t.igncr
    && r.onlcr == t.onlcr && r.others == t.others && r.vtime == 0
  }

  /**
   Entering raw mode when everything is in order: on success the terminal is
   remembered, its untouched settings are those it had, and it is transparent
   exactly when three of these were off.
   */
  lemma EnteredIsTransparentIff(s: State, fd: int, env: EnterEnv, orig: Ttys)
    requires InOrder(s, orig) && !Loses(s, EnterRaw(fd, env)) && Enter(s, fd, env).1
    ensures var r := Enter(s, fd, env).0;
            && r.active && r.fd == fd && IsTty(r, fd) && r.terminals == s.terminals && r.terminals[fd] in orig
            && var (now, was) := (r.ttys[r.terminals[fd]], orig[r.terminals[fd]]);
               && SameElsewhere(was, now)
               && (Transparent(now) <==> !was.inlcr && !was.igncr && !(was.parmrk && !was.ignpar))
  {
    hide Transparent;
    StepKeepsOrder(s, EnterRaw(fd, env), orig);
    EnterReturns(s, fd, env);
    var r := Enter(s, fd, env).0;
    assert InOrder(r, orig) && r.active && r.fd == fd;
    assert r.terminals[fd] in r.ttys.Keys && Remembers(r, r.terminals[fd]);
    assert r.ttys[r.terminals[fd]] == MakeRaw(orig[r.terminals[fd]]);
    RawIsTransparentIff(orig[r.terminals[fd]]);
  }

  // ----- what the calls return -----

  /** A restore of the remembered descriptor succeeds when all three of its calls do; any other does nothing. */
  lemma RestoreReturns(s: State, fd: int, env: RestoreEnv)
    ensures var (r, ok) := Restore(s, fd, env);
            if s.active && s.fd == fd
            then (ok <==> env.flushBefore && env.apply && IsTty(s, fd) && env.flushAfter) && !r.active
            else ok && r == s
  {
  }

  /**
   An enter on the remembered descriptor does nothing.  Any other succeeds when
   its own four calls do, whatever became of the restore before it, and only
   then is its descriptor remembered.
   */
  lemma EnterReturns(s: State, fd: int, env: EnterEnv)
    ensures var (r, ok) := Enter(s, fd, env);
            if s.active && s.fd == fd then ok && r == s
            else
              && (ok <==> env.read && IsTty(s, fd) && env.flushBefore && env.apply && env.flushAfter)
              && r.active == ok && (ok ==> r.fd == fd && IsTty(r, fd)) && r.terminals == s.terminals
  {
  }
}
