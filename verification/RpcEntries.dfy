/** The log of session entries and cursor-based polling over it. */
module RpcEntries {
  import opened Prelude

  datatype Entry = Entry(id: string, hasParent: bool, parentId: string, raw: string)

  type Log = seq<Entry>

  predicate HasId(log: Log, id: string) { exists i | 0 <= i < |log| :: log[i].id == id }

  /** What the repository promises of a log: every id is non-empty and used once. */
  predicate Identified(log: Log) {
    && (forall i | 0 <= i < |log| :: log[i].id != "")
    && (forall i, j | 0 <= i < j < |log| :: log[i].id != log[j].id)
  }

  /** rpc_entries: everything after the entry named by the cursor, or an error for an unknown cursor. */
  method EntriesSince(log: Log, since: string) returns (r: Option<seq<Entry>>)
    ensures since == "" ==> r == Some(log)
    ensures since != "" ==> (r.None? <==> !HasId(log, since))
    ensures since != "" && r.Some? ==>
              exists i :: FirstAt(log, since, i) && r.value == log[i + 1..]
  {
    var values: seq<Entry> := [];
    var foundSince := since == "";
    ghost var from := 0;  // where the reply starts, once that is known
    for n := 0 to |log|
      invariant if foundSince then from <= n && values == log[from..n] else values == []
      invariant since == "" ==> foundSince && from == 0
      invariant since != "" && foundSince ==> FirstAt(log, since, from - 1)
      invariant !foundSince ==> forall k | 0 <= k < n :: log[k].id != since
    {
      var entry := log[n];
      if !foundSince {
        if entry.id == since {
          foundSince, from := true, n + 1;
        }
      } else {
        values := values + [entry];
        assert log[from..n + 1] == log[from..n] + [entry];
      }
    }
    if since != "" && !foundSince {
      return None;
    }
    assert log[from..|log|] == log[from..];
    return Some(values);
  }

  predicate FirstAt(log: Log, id: string, i: int) {
    0 <= i < |log| && log[i].id == id && forall k | 0 <= k < i :: log[k].id != id
  }

  /** The reply as a function of the log, for reasoning about a client. */
  function Reply(log: Log, since: string): Option<seq<Entry>> {
    if since == "" then Some(log) else AfterFirst(log, since)
  }

  function AfterFirst(log: Log, id: string): Option<seq<Entry>> {
    if log == [] then None
    else if log[0].id == id then Some(log[1..])
    else AfterFirst(log[1..], id)
  }

  lemma {:induction false} AfterFirstAt(log: Log, id: string, i: int)
    requires FirstAt(log, id, i)
    ensures AfterFirst(log, id) == Some(log[i + 1..])
    decreases log
  {
    if i > 0 {
      assert FirstAt(log[1..], id, i - 1);
      AfterFirstAt(log[1..], id, i - 1);
      assert log[1..][i..] == log[i + 1..];
    }
  }

  lemma {:induction false} AfterFirstNone(log: Log, id: string)
    requires !HasId(log, id)
    ensures AfterFirst(log, id) == None
    decreases log
  {
    if log != [] {
      assert forall i | 0 <= i < |log| - 1 :: log[1..][i] == log[i + 1];
      AfterFirstNone(log[1..], id);
    }
  }

  /** The method's contract pins its result to the function. */
  lemma ReplyIsUnique(log: Log, since: string, r: Option<seq<Entry>>)
    requires since == "" ==> r == Some(log)
    requires since != "" ==> (r.None? <==> !HasId(log, since))
    requires since != "" && r.Some? ==> exists i :: FirstAt(log, since, i) && r.value == log[i + 1..]
    ensures r == Reply(log, since)
  {
    if since != "" {
      if r.Some? {
        var i :| FirstAt(log, since, i) && r.value == log[i + 1..];
        AfterFirstAt(log, since, i);
      } else {
        AfterFirstNone(log, since);
      }
    }
  }

  // ----- a polling client -----

  /** A client passes the id of the last entry it received, or nothing at first. */
  function Cursor(received: seq<Entry>): string {
    if received == [] then "" else received[|received| - 1].id
  }

  function Poll(log: Log, received: seq<Entry>): Option<seq<Entry>> {
    var reply := Reply(log, Cursor(received));
    if reply.None? then None else Some(received + reply.value)
  }

  function PollEach(logs: seq<Log>, received: seq<Entry>): Option<seq<Entry>>
    decreases logs
  {
    if logs == [] then Some(received) else
    var next := Poll(logs[0], received);
    if next.None? then None else PollEach(logs[1..], next.value)
  }

  /** Snapshots of an append-only log. */
  predicate Grows(from: Log, logs: seq<Log>)
    decreases logs
  {
    logs == [] || (from <= logs[0] && Identified(logs[0]) && Grows(logs[0], logs[1..]))
  }

  lemma PollCatchesUp(log: Log, received: seq<Entry>)
    requires Identified(log) && received <= log
    ensures Poll(log, received) == Some(log)
  {
    if received == [] {
      assert [] + log == log;
    } else {
      var i := |received| - 1;
      assert FirstAt(log, received[i].id, i);
      AfterFirstAt(log, received[i].id, i);
      assert received + log[i + 1..] == log;
    }
  }

  /**
   However the log grows between polls, the client ends with the whole log:
   no gap, no duplicate, no reordering, and never an unknown cursor.
   */
  lemma {:induction false} PollingIsComplete(logs: seq<Log>, received: seq<Entry>)
    requires Grows(received, logs)
    ensures PollEach(logs, received) == Some(if logs == [] then received else logs[|logs| - 1])
    decreases logs
  {
    if logs != [] {
      PollCatchesUp(logs[0], received);
      PollingIsComplete(logs[1..], logs[0]);
    }
  }
}
