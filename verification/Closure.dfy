/** The folders under a folder, computed three ways, on any parent data, cycles included. */
module Closure {
  import opened Wrappers

  datatype Folder = Folder(id: string, parent: Option<string>)

  /** Some folder row names a as the parent of b. */
  ghost predicate Edge(folders: seq<Folder>, a: string, b: string) {
    exists i :: 0 <= i < |folders| && folders[i] == Folder(b, Some(a))
  }

  /** p goes from parent to child at every step. */
  ghost predicate IsPath(folders: seq<Folder>, p: seq<string>) {
    p != [] && forall i :: 0 < i < |p| ==> Edge(folders, p[i - 1], p[i])
  }

  ghost predicate Reachable(folders: seq<Folder>, root: string, x: string) {
    exists p :: IsPath(folders, p) && p[0] == root && p[|p| - 1] == x
  }

  function Ids(folders: seq<Folder>): set<string> {
    set f | f in folders :: f.id
  }

  /** The folders reachable from root by child edges, root included. */
  ghost function Below(folders: seq<Folder>, root: string): set<string> {
    set x | x in Ids(folders) + {root} && Reachable(folders, root, x)
  }

  ghost predicate Closed(folders: seq<Folder>, s: set<string>) {
    forall a, b :: a in s && Edge(folders, a, b) ==> b in s
  }

  lemma EdgeId(folders: seq<Folder>, a: string, b: string)
    requires Edge(folders, a, b)
    ensures b in Ids(folders)
  {
  }

  lemma RootBelow(folders: seq<Folder>, root: string)
    ensures root in Below(folders, root)
  {
    assert IsPath(folders, [root]) && [root][0] == root;
  }

  lemma ChildBelow(folders: seq<Folder>, root: string, a: string, b: string)
    requires a in Below(folders, root) && Edge(folders, a, b)
    ensures b in Below(folders, root)
  {
    var p :| IsPath(folders, p) && p[0] == root && p[|p| - 1] == a;
    var q := p + [b];
    assert IsPath(folders, q) && q[0] == root && q[|q| - 1] == b;
    EdgeId(folders, a, b);
  }

  lemma {:induction false} PathStays(folders: seq<Folder>, s: set<string>, p: seq<string>)
    requires Closed(folders, s) && IsPath(folders, p) && p[0] in s
    ensures p[|p| - 1] in s
    decreases |p|
  {
    if |p| > 1 {
      assert Edge(folders, p[0], p[1]);
      PathStays(folders, s, p[1..]);
    }
  }

  /** A set with the root, closed under children and holding only reachable folders is the answer. */
  lemma ClosedIsBelow(folders: seq<Folder>, root: string, s: set<string>)
    requires root in s && s <= Below(folders, root) && Closed(folders, s)
    ensures s == Below(folders, root)
  {
    forall x | x in Below(folders, root) ensures x in s {
      var p :| IsPath(folders, p) && p[0] == root && p[|p| - 1] == x;
      PathStays(folders, s, p);
    }
  }

  // ---- breadth first, over a child index (deleting a credential folder) ----

  ghost predicate IsChildIndex(folders: seq<Folder>, children: map<string, seq<string>>) {
    forall a, b :: Edge(folders, a, b) <==> a in children && b in children[a]
  }

  method ChildIndex(folders: seq<Folder>) returns (children: map<string, seq<string>>)
    ensures IsChildIndex(folders, children)
  {
    children := map[];
    for i := 0 to |folders|
      invariant IsChildIndex(folders[..i], children)
    {
      var f := folders[i];
      IndexGrows(folders, i, children);
      if f.parent.Some? {
        children := children[f.parent.value :=
            (if f.parent.value in children then children[f.parent.value] else []) + [f.id]];
      }
    }
    assert folders[..|folders|] == folders;
  }

  /** One more row adds at most its own edge. */
  lemma IndexGrows(folders: seq<Folder>, i: nat, children: map<string, seq<string>>)
    requires i < |folders| && IsChildIndex(folders[..i], children)
    ensures forall a, b :: Edge(folders[..i + 1], a, b) <==>
        Edge(folders[..i], a, b) || folders[i] == Folder(b, Some(a))
  {
    forall a, b ensures Edge(folders[..i + 1], a, b) <==> Edge(folders[..i], a, b) || folders[i] == Folder(b, Some(a)) {
      if Edge(folders[..i], a, b) {
        var k :| 0 <= k < i && folders[..i][k] == Folder(b, Some(a));
        assert folders[..i + 1][k] == Folder(b, Some(a));
      }
      if folders[i] == Folder(b, Some(a)) { assert folders[..i + 1][i] == Folder(b, Some(a)); }
      if Edge(folders[..i + 1], a, b) {
        var rows := folders[..i + 1];
        var k :| 0 <= k < |rows| && rows[k] == Folder(b, Some(a));
        if k < i { assert folders[..i][k] == Folder(b, Some(a)); }
      }
    }
  }

  /** All children of a seen folder that is not waiting are seen. */
  ghost predicate Expanded(folders: seq<Folder>, seen: set<string>, queue: seq<string>) {
    forall a, b :: a in seen && a !in queue && Edge(folders, a, b) ==> b in seen
  }

  /** The same, but for the children of cur. */
  ghost predicate ExpandedBut(folders: seq<Folder>, seen: set<string>, queue: seq<string>, cur: string) {
    forall a, b :: a in seen && a !in queue && a != cur && Edge(folders, a, b) ==> b in seen
  }

  lemma Dequeued(folders: seq<Folder>, seen: set<string>, queue: seq<string>)
    requires queue != [] && Expanded(folders, seen, queue)
    ensures ExpandedBut(folders, seen, queue[1..], queue[0])
  {
    hide Edge;
    assert forall a :: a in queue ==> a == queue[0] || a in queue[1..];
  }

  lemma Enqueued(folders: seq<Folder>, seen: set<string>, queue: seq<string>, cur: string, c: string)
    requires ExpandedBut(folders, seen, queue, cur)
    ensures ExpandedBut(folders, seen + {c}, queue + [c], cur)
  {
    hide Edge;
    assert forall a :: a in queue + [c] <==> a in queue || a == c;
  }

  lemma ChildrenSeen(folders: seq<Folder>, children: map<string, seq<string>>, seen: set<string>, queue: seq<string>,
      cur: string)
    requires IsChildIndex(folders, children) && ExpandedBut(folders, seen, queue, cur)
    requires cur in children ==> forall c :: c in children[cur] ==> c in seen
    ensures Expanded(folders, seen, queue)
  {
    hide Edge;
  }

  lemma NoneWaiting(folders: seq<Folder>, seen: set<string>)
    requires Expanded(folders, seen, [])
    ensures Closed(folders, seen)
  {
    hide Edge;
  }

  method Subtree(folders: seq<Folder>, id: string) returns (subtree: set<string>)
    ensures subtree == Below(folders, id)
  {
    var children := ChildIndex(folders);
    subtree := {id};
    var queue := [id];
    hide Below, Edge, Expanded, ExpandedBut, Closed;
    RootBelow(folders, id);
    NothingExpanded(folders, id);
    ghost var all := Below(folders, id);
    while |queue| > 0
      invariant id in subtree && subtree <= all
      invariant forall a :: a in queue ==> a in subtree
      invariant Expanded(folders, subtree, queue)
      decreases |all - subtree|, |queue|
    {
      var cur := queue[0];
      ghost var was := subtree;
      Dequeued(folders, subtree, queue);
      queue := queue[1..];
      ghost var rest := queue;
      var cs := if cur in children then children[cur] else [];
      for i := 0 to |cs|
        invariant was <= subtree <= all
        invariant forall a :: a in queue ==> a in subtree
        invariant ExpandedBut(folders, subtree, queue, cur)
        invariant forall j :: 0 <= j < i ==> cs[j] in subtree
        invariant subtree == was ==> queue == rest
      {
        var c := cs[i];
        if c !in subtree {
          ChildBelow(folders, id, cur, c);
          Enqueued(folders, subtree, queue, cur, c);
          subtree := subtree + {c};
          queue := queue + [c];
        }
      }
      ChildrenSeen(folders, children, subtree, queue, cur);
      Fewer(all, was, subtree);
    }
    NoneWaiting(folders, subtree);
    ClosedIsBelow(folders, id, subtree);
  }

  lemma NothingExpanded(folders: seq<Folder>, id: string)
    ensures Expanded(folders, {id}, [id])
  {
  }

  lemma Fewer(all: set<string>, s: set<string>, t: set<string>)
    requires s <= t <= all
    ensures |all - t| <= |all - s|
    ensures s != t ==> |all - t| < |all - s|
  {
    assert all - s == (all - t) + (t - s);
    if s != t { assert t - s != {}; }
  }

  // ---- grow until stable ----

  /** Sensitive folders (app_mcp.go): the tests in its order. */
  method GrowSensitive(folders: seq<Folder>, folderID: string) returns (under: set<string>)
    ensures under == Below(folders, folderID)
  {
    hide Below, Edge, Closed;
    under := {folderID};
    RootBelow(folders, folderID);
    var grew := true;
    while grew
      invariant folderID in under && under <= Below(folders, folderID)
      invariant !grew ==> Closed(folders, under)
      decreases |Below(folders, folderID) - under|, grew
    {
      grew := false;
      ghost var was := under;
      for i := 0 to |folders|
        invariant was <= under <= Below(folders, folderID)
        invariant grew <==> under != was
        invariant !grew ==> Stable(folders[..i], under)
      {
        var f := folders[i];
        RowEdge(folders, i);
        if f.id !in under && f.parent.Some? && f.parent.value in under {
          ChildBelow(folders, folderID, f.parent.value, f.id);
          under := under + {f.id};
          grew := true;
        }
      }
      Fewer(Below(folders, folderID), was, under);
      if !grew { StableIsClosed(folders, under); }
    }
    ClosedIsBelow(folders, folderID, under);
  }

  /** Hosts for facts (app_mcp_facts.go): the parent first. */
  method GrowFacts(folders: seq<Folder>, folderID: string) returns (under: set<string>)
    ensures under == Below(folders, folderID)
  {
    hide Below, Edge, Closed;
    under := {folderID};
    RootBelow(folders, folderID);
    var changed := true;
    while changed
      invariant folderID in under && under <= Below(folders, folderID)
      invariant !changed ==> Closed(folders, under)
      decreases |Below(folders, folderID) - under|, changed
    {
      changed := false;
      ghost var was := under;
      for i := 0 to |folders|
        invariant was <= under <= Below(folders, folderID)
        invariant changed <==> under != was
        invariant !changed ==> Stable(folders[..i], under)
      {
        var f := folders[i];
        RowEdge(folders, i);
        if f.parent.Some? && f.parent.value in under && f.id !in under {
          ChildBelow(folders, folderID, f.parent.value, f.id);
          under := under + {f.id};
          changed := true;
        }
      }
      Fewer(Below(folders, folderID), was, under);
      if !changed { StableIsClosed(folders, under); }
    }
    ClosedIsBelow(folders, folderID, under);
  }

  /** No row would add its folder. */
  ghost predicate Stable(folders: seq<Folder>, s: set<string>) {
    forall i :: 0 <= i < |folders| && folders[i].parent.Some? && folders[i].parent.value in s ==> folders[i].id in s
  }

  lemma RowEdge(folders: seq<Folder>, i: nat)
    requires i < |folders|
    ensures folders[i].parent.Some? ==> Edge(folders, folders[i].parent.value, folders[i].id)
  {
    if folders[i].parent.Some? { assert folders[i] == Folder(folders[i].id, Some(folders[i].parent.value)); }
  }

  lemma StableIsClosed(folders: seq<Folder>, s: set<string>)
    requires Stable(folders[..|folders|], s)
    ensures Closed(folders, s)
  {
    assert folders[..|folders|] == folders;
  }

  /** A folder is under root exactly when it is root or one of its parents is under root. */
  lemma BelowByParent(folders: seq<Folder>, root: string, x: string)
    ensures x in Below(folders, root) <==> x == root || exists a :: a in Below(folders, root) && Edge(folders, a, x)
  {
    RootBelow(folders, root);
    if x in Below(folders, root) && x != root {
      var p :| IsPath(folders, p) && p[0] == root && p[|p| - 1] == x;
      PrefixReaches(folders, root, p);
    }
    if a :| a in Below(folders, root) && Edge(folders, a, x) { ChildBelow(folders, root, a, x); }
  }

  lemma PrefixReaches(folders: seq<Folder>, root: string, p: seq<string>)
    requires IsPath(folders, p) && p[0] == root && |p| > 1
    ensures p[|p| - 2] in Below(folders, root) && Edge(folders, p[|p| - 2], p[|p| - 1])
  {
    var q := p[..|p| - 1];
    assert IsPath(folders, q) && q[0] == root && q[|q| - 1] == p[|p| - 2];
    assert Edge(folders, p[|p| - 1 - 1], p[|p| - 1]);
    if |q| > 1 { EdgeId(folders, p[|q| - 2], p[|q| - 1]); }
  }
}
