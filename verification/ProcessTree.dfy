/** The process closure: a root process and everything reachable from it through
    parent links, cyclic tables included. */
module ProcessTree {
  import opened Text

  /** One numeric /proc directory; the parent is None when its stat cannot be read. */
  datatype Entry = Entry(pid: int, ppid: Option<int>)

  ghost predicate IsChild(entries: seq<Entry>, parent: int, child: int) {
    exists i :: 0 <= i < |entries| && entries[i] == Entry(child, Some(parent))
  }

  /** A chain of parent-to-child steps. */
  ghost predicate IsPath(entries: seq<Entry>, path: seq<int>) {
    path != [] && forall i :: 0 < i < |path| ==> IsChild(entries, path[i - 1], path[i])
  }

  ghost predicate Reaches(entries: seq<Entry>, root: int, pid: int) {
    exists path: seq<int> :: IsPath(entries, path) && path[0] == root && path[|path| - 1] == pid
  }

  lemma ReachesSelf(entries: seq<Entry>, root: int)
    ensures Reaches(entries, root, root)
  {
    assert IsPath(entries, [root]);
  }

  lemma ReachesStep(entries: seq<Entry>, root: int, pid: int, child: int)
    requires Reaches(entries, root, pid) && IsChild(entries, pid, child)
    ensures Reaches(entries, root, child)
  {
    var path :| IsPath(entries, path) && path[0] == root && path[|path| - 1] == pid;
    var longer := path + [child];
    assert IsPath(entries, longer);
    assert longer[0] == root && longer[|longer| - 1] == child;
  }

  ghost predicate Closed(entries: seq<Entry>, pids: set<int>) {
    forall p, c :: p in pids && IsChild(entries, p, c) ==> c in pids
  }

  lemma {:induction false} PathStaysIn(entries: seq<Entry>, pids: set<int>, path: seq<int>)
    requires Closed(entries, pids) && IsPath(entries, path) && path[0] in pids
    ensures path[|path| - 1] in pids
  {
    if |path| > 1 {
      var front := path[..|path| - 1];
      assert IsPath(entries, front);
      PathStaysIn(entries, pids, front);
    }
  }

  /** A closed set that holds the root holds everything the root reaches. */
  lemma ClosedHoldsReached(entries: seq<Entry>, root: int, pids: set<int>)
    requires Closed(entries, pids) && root in pids
    ensures forall pid :: Reaches(entries, root, pid) ==> pid in pids
  {
    forall pid | Reaches(entries, root, pid) ensures pid in pids {
      var path :| IsPath(entries, path) && path[0] == root && path[|path| - 1] == pid;
      PathStaysIn(entries, pids, path);
    }
  }

  /** Children of one process, in listing order. */
  function ChildrenOf(entries: seq<Entry>, parent: int): seq<int> {
    if entries == [] then []
    else
      var last := entries[|entries| - 1];
      ChildrenOf(entries[..|entries| - 1], parent) + (if last.ppid == Some(parent) then [last.pid] else [])
  }

  lemma {:induction false} ChildrenAre(entries: seq<Entry>, parent: int, child: int)
    ensures child in ChildrenOf(entries, parent) <==> IsChild(entries, parent, child)
  {
    if entries != [] {
      var front, last := entries[..|entries| - 1], entries[|entries| - 1];
      ChildrenAre(front, parent, child);
      if IsChild(front, parent, child) {
        var i :| 0 <= i < |front| && front[i] == Entry(child, Some(parent));
        assert entries[i] == Entry(child, Some(parent));
      }
      if IsChild(entries, parent, child) && last != Entry(child, Some(parent)) {
        var i :| 0 <= i < |entries| && entries[i] == Entry(child, Some(parent));
        assert front[i] == Entry(child, Some(parent));
      }
    }
  }

  /** The parent-to-children table. */
  method BuildChildren(entries: seq<Entry>) returns (children: map<int, seq<int>>)
    ensures forall p :: (if p in children then children[p] else []) == ChildrenOf(entries, p)
  {
    children := map[];
    for i := 0 to |entries|
      invariant forall p :: (if p in children then children[p] else []) == ChildrenOf(entries[..i], p)
    {
      assert entries[..i + 1][..i] == entries[..i];
      match entries[i].ppid {
        case None =>
        case Some(parent) =>
          var siblings := if parent in children then children[parent] else [];
          children := children[parent := siblings + [entries[i].pid]];
      }
    }
    assert entries[..|entries|] == entries;
  }

  function Pids(root: int, entries: seq<Entry>): set<int> {
    {root} + set i | 0 <= i < |entries| :: entries[i].pid
  }

  ghost predicate NoRepeats(s: seq<int>) {
    forall i, j :: 0 <= i < j < |s| ==> s[i] != s[j]
  }

  /** Everything but the root follows one of its parents. */
  ghost predicate ParentsFirst(entries: seq<Entry>, out: seq<int>) {
    forall k :: 0 < k < |out| ==> exists j :: 0 <= j < k && IsChild(entries, out[j], out[k])
  }

  /** What the walk keeps: `out` lists the seen processes, the stack holds only
      reachable ones, and every child of a seen process is seen or on the stack. */
  ghost predicate Walk(entries: seq<Entry>, root: int, out: seq<int>, seen: set<int>, stack: seq<int>) {
    && (forall p :: p in out <==> p in seen)
    && NoRepeats(out) && ParentsFirst(entries, out)
    && (if out == [] then stack == [root] else out[0] == root)
    && (forall p :: p in out || p in stack ==> p in Pids(root, entries) && Reaches(entries, root, p))
    && (out != [] ==> forall p :: p in stack ==> exists j :: 0 <= j < |out| && IsChild(entries, out[j], p))
    && (forall p, c :: p in seen && IsChild(entries, p, c) ==> c in seen || c in stack)
  }

  lemma WalkStarts(entries: seq<Entry>, root: int)
    ensures Walk(entries, root, [], {}, [root])
  {
    ReachesSelf(entries, root);
  }

  lemma InSnoc<T>(s: seq<T>, x: T)
    ensures forall y :: y in s + [x] <==> y in s || y == x
  {
  }

  lemma WalkSkips(entries: seq<Entry>, root: int, out: seq<int>, seen: set<int>, rest: seq<int>, pid: int)
    requires Walk(entries, root, out, seen, rest + [pid]) && pid in seen
    ensures Walk(entries, root, out, seen, rest)
  {
    InSnoc(rest, pid);
  }

  /** Every listed process but the first, and everything on the stack, has a parent listed
      before it. */
  lemma VisitKeepsParents(entries: seq<Entry>, out: seq<int>, rest: seq<int>, pid: int, more: seq<int>)
    requires ParentsFirst(entries, out) && (out == [] ==> rest == [])
    requires out != [] ==> forall p :: p in rest + [pid] ==> exists j :: 0 <= j < |out| && IsChild(entries, out[j], p)
    requires forall c :: c in more ==> IsChild(entries, pid, c)
    ensures ParentsFirst(entries, out + [pid])
    ensures forall p :: p in rest + more ==> exists j :: 0 <= j < |out| + 1 && IsChild(entries, (out + [pid])[j], p)
  {
    hide IsChild;
    var out' := out + [pid];
    forall p | p in rest + more ensures exists j :: 0 <= j < |out'| && IsChild(entries, out'[j], p) {
      if p in more {
        assert IsChild(entries, out'[|out|], p);
      } else {
        assert p in rest + [pid];
        var j :| 0 <= j < |out| && IsChild(entries, out[j], p);
        assert out'[j] == out[j];
      }
    }
    forall k | 0 < k < |out'| ensures exists j :: 0 <= j < k && IsChild(entries, out'[j], out'[k]) {
      assert out'[k] == if k < |out| then out[k] else pid;
      assert out'[k] in rest + [pid] || k < |out|;
      var j :| 0 <= j < k && IsChild(entries, out[j], out'[k]);
      assert IsChild(entries, out'[j], out'[k]);
    }
    assert ParentsFirst(entries, out');
  }

  lemma WalkVisits(entries: seq<Entry>, root: int, out: seq<int>, seen: set<int>, rest: seq<int>, pid: int,
                   more: seq<int>)
    requires Walk(entries, root, out, seen, rest + [pid]) && pid !in seen
    requires more == ChildrenOf(entries, pid)
    ensures pid in Pids(root, entries)
    ensures Walk(entries, root, out + [pid], seen + {pid}, rest + more)
  {
    hide IsChild, Pids, Reaches, ParentsFirst, ChildrenOf;
    InSnoc(rest, pid);
    InSnoc(out, pid);
    var stack' := rest + more;
    assert out == [] ==> rest == [] && pid == root by {
      if out == [] { assert rest + [pid] == [root]; }
    }
    forall c ensures c in more <==> IsChild(entries, pid, c) {
      ChildrenAre(entries, pid, c);
    }
    forall p | p in stack' ensures p in Pids(root, entries) && Reaches(entries, root, p) {
      if p in more { ChildIsListed(entries, root, pid, p); }
    }
    VisitKeepsParents(entries, out, rest, pid, more);
  }

  lemma ChildIsListed(entries: seq<Entry>, root: int, pid: int, child: int)
    requires IsChild(entries, pid, child) && Reaches(entries, root, pid)
    ensures child in Pids(root, entries) && Reaches(entries, root, child)
  {
    ReachesStep(entries, root, pid, child);
  }

  lemma WalkEnds(entries: seq<Entry>, root: int, out: seq<int>, seen: set<int>)
    requires Walk(entries, root, out, seen, [])
    ensures out != [] && out[0] == root && NoRepeats(out) && ParentsFirst(entries, out)
    ensures forall pid :: pid in out <==> Reaches(entries, root, pid)
  {
    assert Closed(entries, seen);
    assert out[0] in out;
    ClosedHoldsReached(entries, root, seen);
  }

  /** Root plus all descendants. A root that is no number gives nothing; an unreadable
      process table gives the root alone. */
  method ProcessTree(root: Option<int>, listing: Option<seq<Entry>>) returns (out: seq<int>)
    ensures root.None? ==> out == []
    ensures root.Some? && listing.None? ==> out == [root.value]
    ensures root.Some? && listing.Some? ==>
      && out != [] && out[0] == root.value
      && NoRepeats(out)
      && ParentsFirst(listing.value, out)
      && forall pid :: pid in out <==> Reaches(listing.value, root.value, pid)
  {
    hide Walk, ChildrenOf, NoRepeats, ParentsFirst, Reaches, Pids;
    if root.None? { return []; }
    if listing.None? { return [root.value]; }
    var r, entries := root.value, listing.value;
    var children := BuildChildren(entries);
    var seen: set<int>, stack := {}, [r];
    out := [];
    WalkStarts(entries, r);
    while stack != []
      invariant Walk(entries, r, out, seen, stack)
      decreases |Pids(r, entries) - seen|, |stack|
    {
      ghost var left := Pids(r, entries) - seen;
      var pid, rest := stack[|stack| - 1], stack[..|stack| - 1];
      assert stack == rest + [pid];
      stack := rest;
      if pid in seen {
        WalkSkips(entries, r, out, seen, rest, pid);
      } else {
        var more := if pid in children then children[pid] else [];
        WalkVisits(entries, r, out, seen, rest, pid, more);
        seen := seen + {pid};
        out := out + [pid];
        stack := stack + more;
        SmallerSet(Pids(r, entries) - seen, left);
      }
    }
    WalkEnds(entries, r, out, seen);
  }
}
