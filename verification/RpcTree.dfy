/**
 The tree view of a session log.  The recursion is proved, in both readings of
 `next_visited = visited` (a copy, or the same list), to build the one forest
 in which the children of a node are exactly the entries that name it as
 parent, in log order.
 */
module RpcTree {
  import opened Prelude
  import opened RpcEntries

  datatype Node = Node(entry: Entry, children: seq<Node>)

  predicate IsRoot(log: Log, e: Entry) {
    !e.hasParent || e.parentId == e.id || !HasId(log, e.parentId)
  }

  predicate Matches(log: Log, parentId: string, e: Entry) {
    if parentId == "" then IsRoot(log, e)
    else e.hasParent && e.parentId == parentId && e.parentId != e.id
  }

  /** The entries among the first n that belong under a parent, in log order. */
  function Matching(log: Log, parentId: string, n: nat): seq<Entry>
    requires n <= |log|
  {
    if n == 0 then []
    else Matching(log, parentId, n - 1) + (if Matches(log, parentId, log[n - 1]) then [log[n - 1]] else [])
  }

  function Entries(nodes: seq<Node>): (es: seq<Entry>)
    ensures |es| == |nodes| && forall k | 0 <= k < |nodes| :: es[k] == nodes[k].entry
  {
    seq(|nodes|, k requires 0 <= k < |nodes| => nodes[k].entry)
  }

  lemma EntriesConcat(a: seq<Node>, b: seq<Node>)
    ensures Entries(a + b) == Entries(a) + Entries(b)
  {
  }

  /** The reference: at every level, exactly the matching entries in log order. */
  predicate IsForest(log: Log, parentId: string, nodes: seq<Node>)
    decreases nodes
  {
    && Entries(nodes) == Matching(log, parentId, |log|)
    && forall k | 0 <= k < |nodes| :: IsForest(log, nodes[k].entry.id, nodes[k].children)
  }

  /** There is only one such forest. */
  lemma {:induction false} ForestIsUnique(log: Log, parentId: string, a: seq<Node>, b: seq<Node>)
    requires IsForest(log, parentId, a) && IsForest(log, parentId, b)
    ensures a == b
    decreases a
  {
    assert |a| == |Entries(a)| == |Entries(b)| == |b|;
    forall k | 0 <= k < |a| ensures a[k] == b[k] {
      assert Entries(a)[k] == Entries(b)[k];
      ForestIsUnique(log, a[k].entry.id, a[k].children, b[k].children);
    }
  }

  lemma {:induction false} MatchingIn(log: Log, parentId: string, n: nat, e: Entry)
    requires n <= |log|
    ensures e in Matching(log, parentId, n) <==> exists k | 0 <= k < n :: log[k] == e && Matches(log, parentId, e)
  {
    if n > 0 {
      MatchingIn(log, parentId, n - 1, e);
      if exists k | 0 <= k < n :: log[k] == e && Matches(log, parentId, e) {
        var k :| 0 <= k < n && log[k] == e && Matches(log, parentId, e);
        if k < n - 1 {
          assert e in Matching(log, parentId, n - 1);
        }
      }
    }
  }

  // ----- the two linear searches of the loop body -----

  method Exists(log: Log, id: string) returns (found: bool)
    ensures found == HasId(log, id)
  {
    found := false;
    for i := 0 to |log|
      invariant !found && forall k | 0 <= k < i :: log[k].id != id
    {
      if log[i].id == id {
        return true;
      }
    }
  }

  method Seen(visited: seq<string>, id: string) returns (seen: bool)
    ensures seen == (id in visited)
  {
    seen := false;
    for i := 0 to |visited|
      invariant !seen && id !in visited[..i]
    {
      if visited[i] == id {
        return true;
      }
    }
  }

  method MatchesEntry(log: Log, parentId: string, entry: Entry) returns (matches: bool)
    ensures matches == Matches(log, parentId, entry)
  {
    var danglingParent := false;
    if entry.hasParent && entry.parentId != entry.id {
      var parentExists := Exists(log, entry.parentId);
      danglingParent := !parentExists;
    }
    var isRoot := !entry.hasParent || entry.parentId == entry.id || danglingParent;
    matches := if parentId == "" then isRoot
               else entry.hasParent && entry.parentId == parentId && entry.parentId != entry.id;
  }

  ghost function Ids(log: Log): set<string> { set e | e in log :: e.id }

  ghost function Members(visited: seq<string>): set<string> { set x | x in visited }

  // ----- reading 1: next_visited is a copy -----

  /** With copies, `visited` is the path from a root down to the parent. */
  ghost predicate IsPath(log: Log, visited: seq<string>, parentId: string) {
    && (parentId == "" <==> visited == [])
    && (visited != [] ==> visited[|visited| - 1] == parentId)
    && (forall j, k | 0 <= j < k < |visited| :: visited[j] != visited[k])
    && (forall k | 0 <= k < |visited| :: HasId(log, visited[k]))
    && (forall i, k | 0 <= i < |log| && 0 <= k < |visited| && log[i].id == visited[k] ::
          Matches(log, Above(visited, k), log[i]))
  }

  function Above(visited: seq<string>, k: int): string
    requires 0 <= k < |visited|
  {
    if k == 0 then "" else visited[k - 1]
  }

  lemma UnseenOnPath(log: Log, visited: seq<string>, parentId: string, e: Entry)
    requires Identified(log) && IsPath(log, visited, parentId) && e in log && Matches(log, parentId, e)
    ensures e.id !in visited
  {
    var i :| 0 <= i < |log| && log[i] == e;
    forall k | 0 <= k < |visited| ensures visited[k] != e.id {
      assert HasId(log, visited[|visited| - 1]);
      assert k > 0 ==> HasId(log, visited[k - 1]);
      assert visited[k] == e.id ==> Matches(log, Above(visited, k), log[i]);
    }
  }

  lemma FewerUnvisited(log: Log, visited: seq<string>, e: Entry)
    requires e in log && e.id !in visited
    ensures Ids(log) - Members(visited + [e.id]) < Ids(log) - Members(visited)
  {
    MembersPush(visited, e.id);
    assert e.id in Ids(log) - Members(visited);
  }

  lemma PathExtends(log: Log, visited: seq<string>, parentId: string, e: Entry)
    requires Identified(log) && IsPath(log, visited, parentId) && e in log && Matches(log, parentId, e)
    ensures IsPath(log, visited + [e.id], e.id)
  {
    UnseenOnPath(log, visited, parentId, e);
    var longer := visited + [e.id];
    assert forall j | 0 <= j < |visited| :: longer[j] == visited[j];
    forall i, k | 0 <= i < |log| && 0 <= k < |longer| && log[i].id == longer[k]
      ensures Matches(log, Above(longer, k), log[i])
    {
      hide Matches;
      if k == |visited| {
        SameEntry(log, e, log[i]);
      } else {
        assert log[i].id == visited[k] && Above(longer, k) == Above(visited, k);
      }
    }
  }

  lemma SameEntry(log: Log, e: Entry, f: Entry)
    requires Identified(log) && e in log && f in log && e.id == f.id
    ensures e == f
  {
  }

  method TreeNodesCopying(log: Log, parentId: string, visited: seq<string>) returns (values: seq<Node>)
    requires Identified(log) && IsPath(log, visited, parentId)
    ensures IsForest(log, parentId, values)
    decreases Ids(log) - Members(visited)
  {
    hide IsPath, Identified, Matches, Ids, Members;
    values := [];
    for n := 0 to |log|
      invariant Entries(values) == Matching(log, parentId, n)
      invariant forall k | 0 <= k < |values| :: IsForest(log, values[k].entry.id, values[k].children)
    {
      var entry := log[n];
      var matches := MatchesEntry(log, parentId, entry);
      if matches {
        UnseenOnPath(log, visited, parentId, entry);
        PathExtends(log, visited, parentId, entry);
        FewerUnvisited(log, visited, entry);
        var seen := Seen(visited, entry.id);
        if !seen {
          var nextVisited := visited + [entry.id];
          var children := TreeNodesCopying(log, entry.id, nextVisited);
          EntriesConcat(values, [Node(entry, children)]);
          values := values + [Node(entry, children)];
        }
      }
    }
  }

  // ----- reading 2: next_visited is the same list -----

  class StringList {
    var items: seq<string>

    constructor ()
      ensures items == []
    {
      items := [];
    }
  }

  /** Whatever has been visited is a root or has a visited parent. */
  ghost predicate ParentClosed(log: Log, seen: set<string>) {
    forall k {:trigger log[k].id in seen} | 0 <= k < |log| && log[k].id in seen ::
      IsRoot(log, log[k]) || log[k].parentId in seen
  }

  /** Entries added since `before` lie below the parent: directly, or under another added entry. */
  ghost predicate AddedBelow(log: Log, parentId: string, before: set<string>, now: set<string>, n: nat) {
    forall k {:trigger log[k].id in now} | 0 <= k < |log| && log[k].id in now && log[k].id !in before ::
      || (k < n && Matches(log, parentId, log[k]))
      || (!IsRoot(log, log[k]) && log[k].parentId in now && log[k].parentId !in before)
  }

  ghost predicate Unvisited(log: Log, parentId: string, seen: set<string>) {
    && (parentId == "" || (parentId in seen && HasId(log, parentId)))
    && (forall k {:trigger Matches(log, parentId, log[k])} | 0 <= k < |log| && Matches(log, parentId, log[k]) ::
          log[k].id !in seen)
  }

  /** What holds of the shared list while the loop over the log is at entry n. */
  ghost predicate AtEntry(log: Log, parentId: string, before: set<string>, now: set<string>, n: nat) {
    ParentClosed(log, now) && before <= now && AddedBelow(log, parentId, before, now, n)
  }

  lemma AtNextEntry(log: Log, parentId: string, before: set<string>, now: set<string>, n: nat)
    requires AtEntry(log, parentId, before, now, n)
    ensures AtEntry(log, parentId, before, now, n + 1)
  {
  }

  lemma UnseenInLoop(log: Log, parentId: string, before: set<string>, now: set<string>, n: nat)
    requires Identified(log) && n < |log| && Matches(log, parentId, log[n])
    requires Unvisited(log, parentId, before) && AtEntry(log, parentId, before, now, n)
    ensures log[n].id !in now
  {
  }

  lemma PushKeeps(log: Log, parentId: string, before: set<string>, now: set<string>, n: nat)
    requires Identified(log) && n < |log| && Matches(log, parentId, log[n]) && log[n].id !in now
    requires Unvisited(log, parentId, before) && AtEntry(log, parentId, before, now, n)
    ensures ParentClosed(log, now + {log[n].id}) && Unvisited(log, log[n].id, now + {log[n].id})
    ensures Ids(log) - (now + {log[n].id}) < Ids(log) - now
  {
    assert log[n].id in Ids(log) - now;
    assert HasId(log, log[n].id);
  }

  lemma CallKeeps(log: Log, parentId: string, before: set<string>, now: set<string>, later: set<string>, n: nat)
    requires Identified(log) && n < |log| && Matches(log, parentId, log[n]) && log[n].id !in now
    requires AtEntry(log, parentId, before, now, n)
    requires AtEntry(log, log[n].id, now + {log[n].id}, later, |log|)
    ensures AtEntry(log, parentId, before, later, n + 1)
  {
    assert HasId(log, log[n].id);
  }

  lemma MembersPush(visited: seq<string>, id: string)
    ensures Members(visited + [id]) == Members(visited) + {id}
  {
  }

  method TreeNodesAliasing(log: Log, parentId: string, visited: StringList) returns (values: seq<Node>)
    requires Identified(log)
    requires Unvisited(log, parentId, Members(visited.items)) && ParentClosed(log, Members(visited.items))
    modifies visited
    ensures IsForest(log, parentId, values)
    ensures AtEntry(log, parentId, old(Members(visited.items)), Members(visited.items), |log|)
    decreases Ids(log) - Members(visited.items), 1
  {
    values := [];
    ghost var before := Members(visited.items);
    for n := 0 to |log|
      invariant Entries(values) == Matching(log, parentId, n)
      invariant forall k | 0 <= k < |values| :: IsForest(log, values[k].entry.id, values[k].children)
      invariant AtEntry(log, parentId, before, Members(visited.items), n)
    {
      var nodes := VisitEntry(log, parentId, n, visited, before);
      EntriesConcat(values, nodes);
      values := values + nodes;
    }
  }

  /** The loop body: at most one node, built after marking the entry and recursing. */
  method VisitEntry(log: Log, parentId: string, n: nat, visited: StringList, ghost before: set<string>)
    returns (nodes: seq<Node>)
    requires Identified(log) && n < |log|
    requires Unvisited(log, parentId, before) && AtEntry(log, parentId, before, Members(visited.items), n)
    modifies visited
    ensures Entries(nodes) == if Matches(log, parentId, log[n]) then [log[n]] else []
    ensures forall k | 0 <= k < |nodes| :: IsForest(log, nodes[k].entry.id, nodes[k].children)
    ensures AtEntry(log, parentId, before, Members(visited.items), n + 1)
    decreases Ids(log) - Members(visited.items), 0
  {
    ghost var now := Members(visited.items);
    var matches := MatchesEntry(log, parentId, log[n]);
    if !matches {
      AtNextEntry(log, parentId, before, now, n);
      return [];
    }
    UnseenInLoop(log, parentId, before, now, n);
    PushKeeps(log, parentId, before, now, n);
    var seen := Seen(visited.items, log[n].id);
    if seen {
      return [];
    }
    MembersPush(visited.items, log[n].id);
    visited.items := visited.items + [log[n].id];
    var children := TreeNodesAliasing(log, log[n].id, visited);
    CallKeeps(log, parentId, before, now, Members(visited.items), n);
    return [Node(log[n], children)];
  }

  /** rpc_tree, both readings at once: they return the same forest. */
  method Tree(log: Log) returns (copied: seq<Node>, aliased: seq<Node>)
    requires Identified(log)
    ensures IsForest(log, "", copied) && aliased == copied
  {
    copied := TreeNodesCopying(log, "", []);
    var visited := new StringList();
    aliased := TreeNodesAliasing(log, "", visited);
    ForestIsUnique(log, "", copied, aliased);
  }
}
