/**
 What the tree view contains: every entry whose parent chain ends at a root,
 exactly once, under its parent; and nothing else.  Entries on a parent cycle
 or below one are left out.
 */
module RpcTreeContents {
  import opened Prelude
  import opened RpcEntries
  import opened RpcTree

  function Flatten(nodes: seq<Node>): seq<Entry>
    decreases nodes
  {
    if nodes == [] then []
    else [nodes[0].entry] + Flatten(nodes[0].children) + Flatten(nodes[1..])
  }

  /** The entry with an id. */
  ghost function Named(log: Log, id: string): (e: Entry)
    requires HasId(log, id)
    ensures e in log && e.id == id
  {
    var i :| 0 <= i < |log| && log[i].id == id;
    log[i]
  }

  ghost function Parent(log: Log, e: Entry): Entry
    requires !IsRoot(log, e)
  {
    Named(log, e.parentId)
  }

  /** The parent chain of e reaches a root after exactly n steps. */
  ghost predicate Grounded(log: Log, e: Entry, n: nat)
    decreases n
  {
    if n == 0 then IsRoot(log, e) else !IsRoot(log, e) && Grounded(log, Parent(log, e), n - 1)
  }

  ghost predicate HasDepth(log: Log, e: Entry) { exists n: nat :: Grounded(log, e, n) }

  ghost function Ancestor(log: Log, e: Entry, k: nat): Entry
    decreases k
  {
    if k == 0 || IsRoot(log, e) then e else Ancestor(log, Parent(log, e), k - 1)
  }

  lemma {:induction false} DepthIsUnique(log: Log, e: Entry, m: nat, n: nat)
    requires Grounded(log, e, m) && Grounded(log, e, n)
    ensures m == n
    decreases m
  {
    if m > 0 {
      DepthIsUnique(log, Parent(log, e), m - 1, n - 1);
    }
  }

  lemma {:induction false} AncestorStep(log: Log, e: Entry, n: nat, k: nat)
    requires Grounded(log, e, n) && k < n
    ensures !IsRoot(log, Ancestor(log, e, k)) && Ancestor(log, e, k + 1) == Parent(log, Ancestor(log, e, k))
    decreases k
  {
    if k > 0 {
      AncestorStep(log, Parent(log, e), n - 1, k - 1);
    } else {
      assert Ancestor(log, Parent(log, e), 0) == Parent(log, e);
    }
  }

  /** Sibling nodes: distinct matching entries, each above its own forest. */
  ghost predicate Siblings(log: Log, parentId: string, nodes: seq<Node>) {
    && (forall k | 0 <= k < |nodes| :: nodes[k].entry in log && Matches(log, parentId, nodes[k].entry))
    && (forall k | 0 <= k < |nodes| :: IsForest(log, nodes[k].entry.id, nodes[k].children))
    && (forall j, k | 0 <= j < k < |nodes| :: nodes[j].entry != nodes[k].entry)
  }

  /** Entries under this parent sit d steps from a root. */
  ghost predicate Level(log: Log, parentId: string, d: nat) {
    if parentId == "" then d == 0
    else d > 0 && HasId(log, parentId) && Grounded(log, Named(log, parentId), d - 1)
  }

  lemma {:induction false} MatchingDistinct(log: Log, parentId: string, n: nat)
    requires Identified(log) && n <= |log|
    ensures forall j, k | 0 <= j < k < |Matching(log, parentId, n)| ::
              Matching(log, parentId, n)[j] != Matching(log, parentId, n)[k]
  {
    if n > 0 {
      MatchingDistinct(log, parentId, n - 1);
      MatchingIn(log, parentId, n - 1, log[n - 1]);
    }
  }

  lemma ForestSiblings(log: Log, parentId: string, nodes: seq<Node>)
    requires Identified(log) && IsForest(log, parentId, nodes)
    ensures Siblings(log, parentId, nodes)
  {
    MatchingDistinct(log, parentId, |log|);
    forall k | 0 <= k < |nodes| ensures nodes[k].entry in log && Matches(log, parentId, nodes[k].entry) {
      assert Entries(nodes)[k] in Matching(log, parentId, |log|);
      MatchingIn(log, parentId, |log|, nodes[k].entry);
    }
    forall j, k | 0 <= j < k < |nodes| ensures nodes[j].entry != nodes[k].entry {
      assert Entries(nodes)[j] != Entries(nodes)[k];
    }
  }

  /** A matching entry sits at the level of its parent's children. */
  lemma MatchLevel(log: Log, parentId: string, e: Entry, d: nat)
    requires Identified(log) && e in log && Matches(log, parentId, e) && Level(log, parentId, d)
    ensures Grounded(log, e, d) && Level(log, e.id, d + 1)
    ensures parentId != "" ==> !IsRoot(log, e) && Parent(log, e).id == parentId
  {
    assert HasId(log, e.id);
    SameEntry(log, e, Named(log, e.id));
  }

  /**
   An entry found among some siblings at level d has a depth n >= d, and its
   ancestor n - d steps up is one of them.
   */
  lemma {:induction false} Located(log: Log, parentId: string, nodes: seq<Node>, x: Entry, d: nat)
    returns (n: nat, k: nat)
    requires Identified(log) && Siblings(log, parentId, nodes) && Level(log, parentId, d) && x in Flatten(nodes)
    ensures x in log && Grounded(log, x, n) && n >= d
    ensures k < |nodes| && Ancestor(log, x, n - d) == nodes[k].entry
    decreases nodes, 1
  {
    hide Siblings, Level, IsForest, Matches;
    var first := nodes[0];
    FirstParts(log, parentId, nodes, d);
    k := 0;
    if x == first.entry {
      n := d;
      assert Ancestor(log, x, 0) == x;
    } else if x in Flatten(first.children) {
      n := BelowFirst(log, parentId, nodes, x, d);
    } else {
      n, k := InRest(log, parentId, nodes, x, d);
    }
  }

  lemma {:induction false} InRest(log: Log, parentId: string, nodes: seq<Node>, x: Entry, d: nat)
    returns (n: nat, k: nat)
    requires Identified(log) && nodes != [] && Siblings(log, parentId, nodes[1..]) && Level(log, parentId, d)
    requires x in Flatten(nodes[1..])
    ensures x in log && Grounded(log, x, n) && n >= d
    ensures 0 < k < |nodes| && Ancestor(log, x, n - d) == nodes[k].entry
    decreases nodes, 0
  {
    var j;
    n, j := Located(log, parentId, nodes[1..], x, d);
    k := j + 1;
    assert nodes[1..][j] == nodes[k];
  }

  lemma FirstParts(log: Log, parentId: string, nodes: seq<Node>, d: nat)
    requires Identified(log) && Siblings(log, parentId, nodes) && Level(log, parentId, d) && nodes != []
    ensures var first := nodes[0].entry;
            && first in log && Grounded(log, first, d) && Level(log, first.id, d + 1)
            && Siblings(log, first.id, nodes[0].children)
    ensures Siblings(log, parentId, nodes[1..])
  {
    MatchLevel(log, parentId, nodes[0].entry, d);
    ForestSiblings(log, nodes[0].entry.id, nodes[0].children);
  }

  lemma UnderFirst(log: Log, node: Node, x: Entry, m: nat, j: nat, d: nat)
    requires Identified(log) && node.entry in log && Siblings(log, node.entry.id, node.children)
    requires Level(log, node.entry.id, d + 1) && j < |node.children|
    requires Grounded(log, x, m) && m >= d + 1 && Ancestor(log, x, m - (d + 1)) == node.children[j].entry
    ensures Ancestor(log, x, m - d) == node.entry
  {
    var child := node.children[j].entry;
    AncestorStep(log, x, m, m - (d + 1));
    MatchLevel(log, node.entry.id, child, d + 1);
    assert Parent(log, child).id == node.entry.id;
    SameEntry(log, Parent(log, child), node.entry);
  }

  /** No entry occurs twice in the tree. */
  lemma {:induction false} AtMostOnce(log: Log, parentId: string, nodes: seq<Node>, x: Entry, d: nat)
    requires Identified(log) && Siblings(log, parentId, nodes) && Level(log, parentId, d)
    ensures multiset(Flatten(nodes))[x] <= 1
    decreases nodes
  {
    if nodes != [] {
      var (first, below, rest) := (nodes[0].entry, nodes[0].children, nodes[1..]);
      FirstParts(log, parentId, nodes, d);
      AtMostOnce(log, first.id, below, x, d + 1);
      AtMostOnce(log, parentId, rest, x, d);
      PartsDisjoint(log, parentId, nodes, x, d);
      assert multiset(Flatten(nodes)) == multiset{first} + multiset(Flatten(below)) + multiset(Flatten(rest));
    }
  }

  lemma PartsDisjoint(log: Log, parentId: string, nodes: seq<Node>, x: Entry, d: nat)
    requires Identified(log) && Siblings(log, parentId, nodes) && Level(log, parentId, d) && nodes != []
    ensures x == nodes[0].entry ==> x !in Flatten(nodes[0].children) && x !in Flatten(nodes[1..])
    ensures x in Flatten(nodes[0].children) ==> x !in Flatten(nodes[1..])
  {
    hide IsForest, Matches, Level, Grounded, Flatten;
    FirstParts(log, parentId, nodes, d);
    if x in Flatten(nodes[0].children) {
      var m := BelowFirst(log, parentId, nodes, x, d);
      if x == nodes[0].entry {
        DepthIsUnique(log, x, m, d);
      }
      if x in Flatten(nodes[1..]) {
        var n, k := InRest(log, parentId, nodes, x, d);
        DepthIsUnique(log, x, m, n);
      }
    } else if x in Flatten(nodes[1..]) {
      var n, k := InRest(log, parentId, nodes, x, d);
      if x == nodes[0].entry {
        DepthIsUnique(log, x, n, d);
      }
    }
  }

  lemma {:induction false} BelowFirst(log: Log, parentId: string, nodes: seq<Node>, x: Entry, d: nat) returns (m: nat)
    requires Identified(log) && Siblings(log, parentId, nodes) && Level(log, parentId, d) && nodes != []
    requires x in Flatten(nodes[0].children)
    ensures x in log && Grounded(log, x, m) && m > d && Ancestor(log, x, m - d) == nodes[0].entry
    decreases nodes, 0
  {
    hide Siblings, Level, IsForest, Matches, Flatten, Grounded, Ancestor;
    var j;
    FirstParts(log, parentId, nodes, d);
    m, j := Located(log, nodes[0].entry.id, nodes[0].children, x, d + 1);
    UnderFirst(log, nodes[0], x, m, j, d);
  }

  /** A node of the forest, at any depth. */
  predicate Within(nodes: seq<Node>, node: Node)
    decreases nodes
  {
    exists k | 0 <= k < |nodes| :: nodes[k] == node || Within(nodes[k].children, node)
  }

  lemma {:induction false} FlattenMember(nodes: seq<Node>, k: nat, x: Entry)
    requires k < |nodes| && (nodes[k].entry == x || x in Flatten(nodes[k].children))
    ensures x in Flatten(nodes)
    decreases |nodes|
  {
    if k > 0 {
      FlattenMember(nodes[1..], k - 1, x);
    }
  }

  lemma {:induction false} WithinForest(log: Log, parentId: string, nodes: seq<Node>, node: Node)
    requires IsForest(log, parentId, nodes) && Within(nodes, node)
    ensures IsForest(log, node.entry.id, node.children) && node.entry in Flatten(nodes)
    decreases nodes
  {
    var k :| 0 <= k < |nodes| && (nodes[k] == node || Within(nodes[k].children, node));
    if nodes[k] != node {
      WithinForest(log, nodes[k].entry.id, nodes[k].children, node);
    }
    FlattenMember(nodes, k, node.entry);
  }

  lemma {:induction false} WithinChildren(nodes: seq<Node>, node: Node, child: Node)
    requires Within(nodes, node) && child in node.children
    ensures Within(nodes, child)
    decreases nodes
  {
    var k :| 0 <= k < |nodes| && (nodes[k] == node || Within(nodes[k].children, node));
    if nodes[k] != node {
      WithinChildren(nodes[k].children, node, child);
    } else {
      var j :| 0 <= j < |node.children| && node.children[j] == child;
      assert Within(nodes[k].children, child);
    }
  }

  /** The top level holds exactly the entries with no parent, with themselves as parent, or with a missing one. */
  lemma {:induction false} TopLevelNodes(log: Log, nodes: seq<Node>, e: Entry)
    requires IsForest(log, "", nodes)
    ensures (exists k :: 0 <= k < |nodes| && nodes[k].entry == e) <==>
            e in log && (!e.hasParent || e.parentId == e.id || forall i | 0 <= i < |log| :: log[i].id != e.parentId)
  {
    MatchingIn(log, "", |log|, e);
    if e in Entries(nodes) {
      var k :| 0 <= k < |nodes| && Entries(nodes)[k] == e;
      assert nodes[k].entry == e;
    }
    if k :| 0 <= k < |nodes| && nodes[k].entry == e {
      assert Entries(nodes)[k] == e;
    }
  }

  /** Under any node of the tree stand exactly the other entries that name it as their parent. */
  lemma ChildNodes(log: Log, nodes: seq<Node>, node: Node, e: Entry)
    requires Identified(log) && IsForest(log, "", nodes) && Within(nodes, node)
    ensures (exists k :: 0 <= k < |node.children| && node.children[k].entry == e) <==>
            e in log && e.hasParent && e.parentId == node.entry.id && e.id != node.entry.id
  {
    WithinForest(log, "", nodes, node);
    TreeHoldsOnlyEntries(log, nodes, node.entry);
    MatchingIn(log, node.entry.id, |log|, e);
    if e in Entries(node.children) {
      var k :| 0 <= k < |node.children| && Entries(node.children)[k] == e;
      assert node.children[k].entry == e;
    }
    if k :| 0 <= k < |node.children| && node.children[k].entry == e {
      assert Entries(node.children)[k] == e;
    }
  }

  /** Brothers stand in log order. */
  lemma {:induction false} MatchingInOrder(log: Log, parentId: string, n: nat, a: nat, b: nat)
    returns (i: nat, j: nat)
    requires n <= |log| && a < b < |Matching(log, parentId, n)|
    ensures i < j < n && log[i] == Matching(log, parentId, n)[a] && log[j] == Matching(log, parentId, n)[b]
  {
    if b < |Matching(log, parentId, n - 1)| {
      i, j := MatchingInOrder(log, parentId, n - 1, a, b);
    } else {
      j := n - 1;
      var e := Matching(log, parentId, n - 1)[a];
      assert e in Matching(log, parentId, n - 1);
      MatchingIn(log, parentId, n - 1, e);
      i :| 0 <= i < n - 1 && log[i] == e;
    }
  }

  /** At every level, nodes stand in the order of their entries in the log. */
  lemma NodesInLogOrder(log: Log, parentId: string, nodes: seq<Node>, a: nat, b: nat)
    requires IsForest(log, parentId, nodes) && a < b < |nodes|
    ensures exists i, j :: 0 <= i < j < |log| && log[i] == nodes[a].entry && log[j] == nodes[b].entry
  {
    var i, j := MatchingInOrder(log, parentId, |log|, a, b);
  }

  /** Every grounded entry has a node, and that node lies under its parent's node. */
  lemma {:induction false} Covered(log: Log, nodes: seq<Node>, x: Entry, n: nat) returns (node: Node)
    requires Identified(log) && IsForest(log, "", nodes) && x in log && Grounded(log, x, n)
    ensures node.entry == x && Within(nodes, node) && IsForest(log, x.id, node.children)
    ensures n > 0 ==> exists above :: Within(nodes, above) && above.entry == Parent(log, x) && node in above.children
    decreases n
  {
    var i :| 0 <= i < |log| && log[i] == x;
    if n == 0 {
      MatchingIn(log, "", |log|, x);
      var k :| 0 <= k < |nodes| && Entries(nodes)[k] == x;
      node := nodes[k];
    } else {
      var p := Parent(log, x);
      var above := Covered(log, nodes, p, n - 1);
      assert x.hasParent && x.parentId != x.id && p.id != "";
      MatchingIn(log, p.id, |log|, x);
      var k :| 0 <= k < |above.children| && Entries(above.children)[k] == x;
      node := above.children[k];
      WithinChildren(nodes, above, node);
    }
  }

  /**
   For every entry of the log: one occurrence in the tree if its parent chain
   ends at a root, none otherwise.
   */
  lemma TreeHoldsGrounded(log: Log, nodes: seq<Node>, x: Entry)
    requires Identified(log) && IsForest(log, "", nodes) && x in log
    ensures multiset(Flatten(nodes))[x] == if HasDepth(log, x) then 1 else 0
  {
    ForestSiblings(log, "", nodes);
    AtMostOnce(log, "", nodes, x, 0);
    if n: nat :| Grounded(log, x, n) {
      var node := Covered(log, nodes, x, n);
      WithinForest(log, "", nodes, node);
    } else if x in Flatten(nodes) {
      var m, k := Located(log, "", nodes, x, 0);
    }
  }

  lemma TreeHoldsOnlyEntries(log: Log, nodes: seq<Node>, x: Entry)
    requires Identified(log) && IsForest(log, "", nodes) && x in Flatten(nodes)
    ensures x in log
  {
    ForestSiblings(log, "", nodes);
    var m, k := Located(log, "", nodes, x, 0);
  }

  // ----- cycles -----

  /** f is k parent steps above e, and no entry on the way is a root. */
  ghost predicate Reaches(log: Log, e: Entry, k: nat, f: Entry)
    decreases k
  {
    if k == 0 then e == f else !IsRoot(log, e) && Reaches(log, Parent(log, e), k - 1, f)
  }

  /** e lies on a parent cycle, or below one. */
  ghost predicate OnOrBelowCycle(log: Log, e: Entry) {
    exists j: nat, k: nat, f :: k > 0 && Reaches(log, e, j, f) && Reaches(log, f, k, f)
  }

  lemma {:induction false} ReachesDepth(log: Log, e: Entry, k: nat, f: Entry, n: nat)
    requires Reaches(log, e, k, f) && Grounded(log, e, n)
    ensures k <= n && Grounded(log, f, n - k)
    decreases k
  {
    if k > 0 {
      ReachesDepth(log, Parent(log, e), k - 1, f, n - 1);
    }
  }

  /** The first k steps up, when none of them starts at a root. */
  ghost predicate Climbs(log: Log, e: Entry, k: nat)
    decreases k
  {
    k == 0 || (!IsRoot(log, e) && Climbs(log, Parent(log, e), k - 1))
  }

  lemma {:induction false} ClimbOrGround(log: Log, e: Entry, k: nat)
    ensures Climbs(log, e, k) || HasDepth(log, e)
    decreases k
  {
    if k > 0 && !IsRoot(log, e) {
      ClimbOrGround(log, Parent(log, e), k - 1);
      if n: nat :| Grounded(log, Parent(log, e), n) {
        assert Grounded(log, e, n + 1);
      }
    } else if k > 0 {
      assert Grounded(log, e, 0);
    }
  }

  lemma {:induction false} ClimbReaches(log: Log, e: Entry, k: nat, i: nat, j: nat)
    requires Climbs(log, e, k) && i <= j <= k
    ensures Reaches(log, e, i, Ancestor(log, e, i))
    ensures Reaches(log, Ancestor(log, e, i), j - i, Ancestor(log, e, j))
    decreases k
  {
    if i > 0 {
      ClimbReaches(log, Parent(log, e), k - 1, i - 1, j - 1);
    } else if j > 0 {
      ClimbReaches(log, Parent(log, e), k - 1, 0, j - 1);
    }
  }

  lemma {:induction false} ClimbInLog(log: Log, e: Entry, k: nat, i: nat)
    requires e in log && Climbs(log, e, k) && i <= k
    ensures Ancestor(log, e, i) in log
    decreases k
  {
    if i > 0 {
      ClimbInLog(log, Parent(log, e), k - 1, i - 1);
    }
  }

  /** More numbers than places: two of them share a place. */
  lemma {:induction false} Pigeonhole(places: nat, at: seq<nat>) returns (i: nat, j: nat)
    requires |at| > places && forall k | 0 <= k < |at| :: at[k] < places
    ensures i < j < |at| && at[i] == at[j]
    decreases places
  {
    var last := |at| - 1;
    if k :| 0 <= k < last && at[k] == at[last] {
      return k, last;
    }
    // Nothing else uses the last place, so it can be swapped away.
    var p := at[last];
    var moved := seq(last, k requires 0 <= k < last => if at[k] == places - 1 then p else at[k]);
    assert forall k | 0 <= k < last :: at[k] != p;
    assert forall k | 0 <= k < last :: moved[k] < places - 1 by {
      assert forall k | 0 <= k < last :: at[k] == places - 1 ==> p < places - 1;
    }
    i, j := Pigeonhole(places - 1, moved);
  }

  /** An entry is missing from the tree exactly when it is on or below a parent cycle. */
  lemma OmittedIffCyclic(log: Log, nodes: seq<Node>, x: Entry)
    requires Identified(log) && IsForest(log, "", nodes) && x in log
    ensures x !in Flatten(nodes) <==> OnOrBelowCycle(log, x)
  {
    TreeHoldsGrounded(log, nodes, x);
    if n: nat :| Grounded(log, x, n) {
      GroundedHasNoCycle(log, x, n);
    } else {
      CycleExists(log, x);
    }
  }

  lemma GroundedHasNoCycle(log: Log, x: Entry, n: nat)
    requires Grounded(log, x, n)
    ensures !OnOrBelowCycle(log, x)
  {
    forall j: nat, k: nat, f | k > 0 && Reaches(log, x, j, f)
      ensures !Reaches(log, f, k, f)
    {
      ReachesDepth(log, x, j, f, n);
      CycleHasNoDepth(log, f, k, n - j);
    }
  }

  lemma CycleHasNoDepth(log: Log, f: Entry, k: nat, n: nat)
    requires k > 0 && Grounded(log, f, n)
    ensures !Reaches(log, f, k, f)
  {
    forall m: nat | Grounded(log, f, m) ensures m == n {
      DepthIsUnique(log, f, m, n);
    }
    if Reaches(log, f, k, f) {
      ReachesDepth(log, f, k, f, n);
    }
  }

  lemma CycleExists(log: Log, x: Entry)
    requires Identified(log) && x in log && !HasDepth(log, x)
    ensures OnOrBelowCycle(log, x)
  {
    var size := |log|;
    ClimbOrGround(log, x, size);
    forall i: nat | i <= size ensures Ancestor(log, x, i) in log {
      ClimbInLog(log, x, size, i);
    }
    var at := seq(size + 1, i requires 0 <= i <= size => Index(log, Ancestor(log, x, i)));
    var i, j := Pigeonhole(size, at);
    assert Ancestor(log, x, i) == Ancestor(log, x, j);
    ClimbReaches(log, x, size, i, j);
  }

  ghost function Index(log: Log, e: Entry): (i: nat)
    requires e in log
    ensures i < |log| && log[i] == e
  {
    var i :| 0 <= i < |log| && log[i] == e;
    i
  }

  /** Two entries that name each other: the tree is empty although the log is not. */
  lemma MutualParentsVanish()
    ensures var log := [Entry("a", true, "b", "A"), Entry("b", true, "a", "B")];
            Identified(log) && IsForest(log, "", [])
  {
    var log := [Entry("a", true, "b", "A"), Entry("b", true, "a", "B")];
    assert log[0].id == "a" && log[1].id == "b";
    assert HasId(log, "a") && HasId(log, "b");
    assert Matching(log, "", 0) == [] && Matching(log, "", 1) == [] && Matching(log, "", 2) == [];
  }
}
