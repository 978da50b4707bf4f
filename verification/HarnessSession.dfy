/** The session log as the harness fills it: each message with the way it came in. */
module HarnessSession {
  import opened Prelude

  type Message = string

  /** An entry comes from the pending queue, or straight from append_message. */
  datatype Entry = Entry(m: Message, fromQueue: bool)

  function Messages(session: seq<Entry>): seq<Message> {
    seq(|session|, i requires 0 <= i < |session| => session[i].m)
  }

  /** The messages that came in one of the two ways, in order. */
  function Received(session: seq<Entry>, fromQueue: bool): seq<Message> {
    if session == [] then [] else
    var last := session[|session| - 1];
    Received(session[..|session| - 1], fromQueue) + (if last.fromQueue == fromQueue then [last.m] else [])
  }

  function Delivered(session: seq<Entry>): seq<Message> { Received(session, true) }

  function Direct(session: seq<Entry>): seq<Message> { Received(session, false) }

  lemma ReceivedSnoc(session: seq<Entry>, e: Entry, fromQueue: bool)
    ensures Received(session + [e], fromQueue) ==
            Received(session, fromQueue) + (if e.fromQueue == fromQueue then [e.m] else [])
  {
    assert (session + [e])[..|session|] == session;
  }

  /** Nothing lost, doubled or reordered between two moments, on either way in. */
  predicate Accounts(s0: seq<Entry>, p0: seq<Message>, s1: seq<Entry>, p1: seq<Message>,
                     queued: seq<Message>, direct: seq<Message>)
  {
    && s0 <= s1
    && Delivered(s1) + p1 == (Delivered(s0) + p0) + queued
    && Direct(s1) == Direct(s0) + direct
  }

  lemma AccountsThen(s0: seq<Entry>, p0: seq<Message>, s1: seq<Entry>, p1: seq<Message>,
                     s2: seq<Entry>, p2: seq<Message>,
                     queued: seq<Message>, direct: seq<Message>, queued': seq<Message>, direct': seq<Message>)
    requires Accounts(s0, p0, s1, p1, queued, direct) && Accounts(s1, p1, s2, p2, queued', direct')
    ensures Accounts(s0, p0, s2, p2, queued + queued', direct + direct')
  {
    hide Received;
    ConcatAssociative(Delivered(s0) + p0, queued, queued');
    ConcatAssociative(Direct(s0), direct, direct');
  }

  /** What takes one of the two ways: the direct one exactly when the phase is idle. */
  function Part(direct: bool, idle: bool, arrived: seq<Message>): seq<Message> {
    if direct == idle then arrived else []
  }

  lemma PartConcat(direct: bool, idle: bool, a: seq<Message>, b: seq<Message>)
    ensures Part(direct, idle, a) + Part(direct, idle, b) == Part(direct, idle, a + b)
  {
    assert direct != idle ==> [] + [] == Part(direct, idle, a + b);
  }

  /** What arrives goes one way or the other, by the phase. */
  predicate AccountsFor(s0: seq<Entry>, p0: seq<Message>, s1: seq<Entry>, p1: seq<Message>,
                        idle: bool, arrived: seq<Message>)
  {
    Accounts(s0, p0, s1, p1, Part(false, idle, arrived), Part(true, idle, arrived))
  }

  lemma AccountsForThen(s0: seq<Entry>, p0: seq<Message>, s1: seq<Entry>, p1: seq<Message>,
                        s2: seq<Entry>, p2: seq<Message>, idle: bool, arrived: seq<Message>, later: seq<Message>)
    requires AccountsFor(s0, p0, s1, p1, idle, arrived) && AccountsFor(s1, p1, s2, p2, idle, later)
    ensures AccountsFor(s0, p0, s2, p2, idle, arrived + later)
  {
    hide Accounts, Part;
    AccountsThen(s0, p0, s1, p1, s2, p2, Part(false, idle, arrived), Part(true, idle, arrived),
                 Part(false, idle, later), Part(true, idle, later));
    PartConcat(false, idle, arrived, later);
    PartConcat(true, idle, arrived, later);
  }

  lemma NothingAccounts(s: seq<Entry>, p: seq<Message>)
    ensures Accounts(s, p, s, p, [], [])
  {
    hide Received;
  }

  lemma NothingArrived(s: seq<Entry>, p: seq<Message>, idle: bool)
    ensures AccountsFor(s, p, s, p, idle, [])
  {
    hide Received;
  }

  /** One message comes in by append_message. */
  lemma OneArrived(s: seq<Entry>, p: seq<Message>, idle: bool, m: Message)
    ensures idle ==> AccountsFor(s, p, s + [Entry(m, false)], p, idle, [m])
    ensures !idle ==> AccountsFor(s, p, s, p + [m], idle, [m])
  {
    hide Received;
    ReceivedSnoc(s, Entry(m, false), true);
    ReceivedSnoc(s, Entry(m, false), false);
    ConcatAssociative(Delivered(s), p, [m]);
  }

  /** The head of the queue moves to the session. */
  lemma HeadMoved(s: seq<Entry>, p: seq<Message>, idle: bool)
    requires p != []
    ensures AccountsFor(s, p, s + [Entry(p[0], true)], p[1..], idle, [])
  {
    hide Received;
    ReceivedSnoc(s, Entry(p[0], true), true);
    ReceivedSnoc(s, Entry(p[0], true), false);
    ConcatAssociative(Delivered(s), [p[0]], p[1..]);
    assert [p[0]] + p[1..] == p;
  }
}
