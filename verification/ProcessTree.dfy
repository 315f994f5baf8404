/**
  * `sumProcessTree` of evals/src/perf-collector.ts: memory and CPU of a process and all its descendants.
  */
module ProcessTree {
  import opened Common

  /** One line of the process listing after its fields were read; a pid that is no number is None. */
  datatype Line = Line(pid: Option<int>, ppid: Option<int>, rss: real, cpu: real)

  datatype Totals = Totals(rssKb: real, cpuPercent: real, procCount: nat)

  // ----- the tree -----

  predicate Usable(l: Line) {
    l.pid.Some? && l.ppid.Some?
  }

  predicate IsRow(l: Line, parent: int, child: int) {
    l.pid == Some(child) && l.ppid == Some(parent)
  }

  ghost predicate IsChild(lines: seq<Line>, parent: int, child: int) {
    exists l :: l in lines && IsRow(l, parent, child)
  }

  ghost predicate Listed(lines: seq<Line>, pid: int) {
    exists l :: l in lines && Usable(l) && l.pid == Some(pid)
  }

  /** A pid is listed exactly if it stands on some line under a parent. */
  lemma ListedIffChild(lines: seq<Line>, q: int)
    ensures Listed(lines, q) <==> exists p :: IsChild(lines, p, q)
  {
    if Listed(lines, q) {
      var l :| l in lines && Usable(l) && l.pid == Some(q);
      assert IsRow(l, l.ppid.value, q);
      assert IsChild(lines, l.ppid.value, q);
    }
    if p :| IsChild(lines, p, q) {
      var l :| l in lines && IsRow(l, p, q);
    }
  }

  /** Parent links lead from root to q along path. */
  ghost predicate IsPath(lines: seq<Line>, path: seq<int>, root: int, q: int) {
    && |path| > 0 && path[0] == root && path[|path| - 1] == q
    && forall i :: 0 <= i < |path| - 1 ==> IsChild(lines, path[i], path[i + 1])
  }

  ghost predicate Reachable(lines: seq<Line>, root: int, q: int) {
    exists path :: IsPath(lines, path, root, q)
  }

  /** The last line about a pid decides its numbers. */
  function LastRss(lines: seq<Line>, pid: int): real {
    if lines == [] then 0.0
    else
      var l := lines[|lines| - 1];
      if Usable(l) && l.pid.value == pid then l.rss else LastRss(lines[..|lines| - 1], pid)
  }

  function LastCpu(lines: seq<Line>, pid: int): real {
    if lines == [] then 0.0
    else
      var l := lines[|lines| - 1];
      if Usable(l) && l.pid.value == pid then l.cpu else LastCpu(lines[..|lines| - 1], pid)
  }

  /** The numbers of a pid are those of the last usable line about it. */
  lemma {:induction false} LastLineDecides(lines: seq<Line>, i: nat)
    requires i < |lines| && Usable(lines[i])
    requires forall j :: i < j < |lines| && Usable(lines[j]) ==> lines[j].pid != lines[i].pid
    ensures LastRss(lines, lines[i].pid.value) == lines[i].rss && LastCpu(lines, lines[i].pid.value) == lines[i].cpu
    decreases |lines|
  {
    if i < |lines| - 1 {
      LastLineDecides(lines[..|lines| - 1], i);
    }
  }

  // ----- sums over pids -----

  /** f added up along ps. */
  function Sum(f: int -> real, ps: seq<int>): real
    decreases |ps|
  {
    if ps == [] then 0.0 else Sum(f, ps[..|ps| - 1]) + f(ps[|ps| - 1])
  }

  lemma SumAdd(f: int -> real, ps: seq<int>, p: int)
    ensures Sum(f, ps + [p]) == Sum(f, ps) + f(p)
  {
    assert (ps + [p])[..|ps|] == ps;
  }

  /** Ones add up to their number. */
  lemma {:induction false} SumOfOnes(ps: seq<int>)
    ensures Sum(_ => 1.0, ps) == |ps| as real
    decreases |ps|
  {
    if ps != [] {
      SumOfOnes(ps[..|ps| - 1]);
      assert Sum(_ => 1.0, ps) == Sum(_ => 1.0, ps[..|ps| - 1]) + 1.0;
    }
  }

  predicate Distinct(ps: seq<int>) {
    forall i, j :: 0 <= i < j < |ps| ==> ps[i] != ps[j]
  }

  /** Taking out any one pid takes out its number, */
  lemma {:induction false} SumTakeOut(f: int -> real, ps: seq<int>, i: nat)
    requires i < |ps|
    ensures Sum(f, ps) == f(ps[i]) + Sum(f, ps[..i] + ps[i + 1..])
    decreases |ps|
  {
    var n := |ps| - 1;
    if i == n {
      assert ps[..i] + ps[i + 1..] == ps[..n];
    } else {
      SumTakeOut(f, ps[..n], i);
      assert ps[..n][..i] + ps[..n][i + 1..] == (ps[..i] + ps[i + 1..])[..n - 1];
    }
  }

  /** so the order does not matter: two enumerations of the same pids have the same sum. */
  lemma {:induction false} SumOfAnyOrder(f: int -> real, ps: seq<int>, qs: seq<int>)
    requires Distinct(ps) && Distinct(qs) && forall q :: q in ps <==> q in qs
    ensures Sum(f, ps) == Sum(f, qs)
    decreases |ps|
  {
    if ps == [] {
      assert forall i :: 0 <= i < |qs| ==> qs[i] in qs;
    } else {
      var n := |ps| - 1;
      assert ps[n] in ps;
      var i :| 0 <= i < |qs| && qs[i] == ps[n];
      SumTakeOut(f, qs, i);
      var rest := qs[..i] + qs[i + 1..];
      forall q ensures q in ps[..n] <==> q in rest {
        assert q in ps[..n] ==> q in ps && q != ps[n];
        assert q in rest <==> q in qs && q != qs[i];
        assert q in ps && q != ps[n] ==> q in ps[..n];
      }
      SumOfAnyOrder(f, ps[..n], rest);
    }
  }

  // ----- reading the listing -----

  /** The three tables hold the lines read so far. */
  ghost predicate Hold(lines: seq<Line>, childrenOf: map<int, seq<int>>, rssOf: map<int, real>, cpuOf: map<int, real>) {
    && (forall q :: q in rssOf <==> Listed(lines, q)) && cpuOf.Keys == rssOf.Keys
    && (forall q :: q in rssOf ==> rssOf[q] == LastRss(lines, q) && cpuOf[q] == LastCpu(lines, q))
    && (forall p, c :: (p in childrenOf && c in childrenOf[p]) <==> IsChild(lines, p, c))
  }

  /** The first loop: a pid listed twice keeps its last numbers and a place under both parents. */
  method ReadListing(lines: seq<Line>)
    returns (childrenOf: map<int, seq<int>>, rssOf: map<int, real>, cpuOf: map<int, real>)
    ensures Hold(lines, childrenOf, rssOf, cpuOf)
  {
    childrenOf, rssOf, cpuOf := map[], map[], map[];
    for i := 0 to |lines|
      invariant Hold(lines[..i], childrenOf, rssOf, cpuOf)
    {
      var l := lines[i];
      assert lines[..i + 1] == lines[..i] + [l];
      LineAdded(lines[..i], l);
      if l.pid.None? || l.ppid.None? { continue; }
      var pid, ppid := l.pid.value, l.ppid.value;
      rssOf := rssOf[pid := l.rss];
      cpuOf := cpuOf[pid := l.cpu];
      if ppid in childrenOf {
        childrenOf := childrenOf[ppid := childrenOf[ppid] + [pid]];
      } else {
        childrenOf := childrenOf[ppid := [pid]];
      }
    }
    assert lines[..|lines|] == lines;
  }

  lemma LineAdded(before: seq<Line>, l: Line)
    ensures forall q :: Listed(before + [l], q) <==> Listed(before, q) || (Usable(l) && l.pid == Some(q))
    ensures forall p, c :: IsChild(before + [l], p, c) <==> IsChild(before, p, c) || IsRow(l, p, c)
    ensures forall q :: LastRss(before + [l], q) == if Usable(l) && l.pid.value == q then l.rss else LastRss(before, q)
    ensures forall q :: LastCpu(before + [l], q) == if Usable(l) && l.pid.value == q then l.cpu else LastCpu(before, q)
  {
  }

  // ----- the walk -----

  lemma ExtendPath(lines: seq<Line>, root: int, p: int, c: int)
    requires Reachable(lines, root, p) && IsChild(lines, p, c)
    ensures Reachable(lines, root, c)
  {
    var path :| IsPath(lines, path, root, p);
    assert IsPath(lines, path + [c], root, c);
  }

  /** A set that contains the root and is closed under children contains all that is reachable. */
  lemma {:induction false} ClosedContainsPath(lines: seq<Line>, S: set<int>, path: seq<int>, root: int, q: int)
    requires root in S && IsPath(lines, path, root, q)
    requires forall p, c :: p in S && IsChild(lines, p, c) ==> c in S
    ensures q in S
    decreases |path|
  {
    if |path| > 1 {
      assert IsChild(lines, path[0], path[1]);
      forall i | 0 <= i < |path[1..]| - 1 ensures IsChild(lines, path[1..][i], path[1..][i + 1]) {
        assert IsChild(lines, path[i + 1], path[i + 2]);
      }
      ClosedContainsPath(lines, S, path[1..], path[1], q);
    }
  }

  /** The pids walked so far and those still queued: all reachable and listed, and closed together. */
  ghost predicate Walking(lines: seq<Line>, root: int, seen: set<int>, queue: seq<int>) {
    && (root in seen || root in queue)
    && (forall q :: q in seen || q in queue ==> Reachable(lines, root, q) && Listed(lines, q))
    && (forall p, c :: p in seen && IsChild(lines, p, c) ==> c in seen || c in queue)
  }

  lemma WalkSkips(lines: seq<Line>, root: int, seen: set<int>, queue: seq<int>)
    requires Walking(lines, root, seen, queue) && queue != [] && queue[0] in seen
    ensures Walking(lines, root, seen, queue[1..])
  {
  }

  lemma WalkVisits(lines: seq<Line>, root: int, seen: set<int>, queue: seq<int>, children: seq<int>)
    requires Walking(lines, root, seen, queue) && queue != []
    requires forall c :: c in children <==> IsChild(lines, queue[0], c)
    ensures Walking(lines, root, seen + {queue[0]}, queue[1..] + children)
  {
    var pid := queue[0];
    assert forall q :: q in queue <==> q == pid || q in queue[1..];
    forall c | c in children ensures Reachable(lines, root, c) && Listed(lines, c) {
      ExtendPath(lines, root, pid, c);
    }
  }

  lemma WalkEnds(lines: seq<Line>, root: int, seen: set<int>)
    requires Walking(lines, root, seen, [])
    ensures forall q :: q in seen <==> Reachable(lines, root, q)
  {
    forall q | Reachable(lines, root, q) ensures q in seen {
      var path :| IsPath(lines, path, root, q);
      ClosedContainsPath(lines, seen, path, root, q);
    }
  }

  /** ps lists exactly the pids reachable from the root, each once. */
  ghost predicate Enumerates(lines: seq<Line>, root: int, ps: seq<int>) {
    Distinct(ps) && forall q :: q in ps <==> Reachable(lines, root, q)
  }

  /** The totals are the sums along ps, and the length of ps. */
  ghost predicate SumsAlong(lines: seq<Line>, t: Totals, ps: seq<int>) {
    && t.procCount == |ps|
    && t.rssKb == Sum(q => LastRss(lines, q), ps)
    && t.cpuPercent == Sum(q => LastCpu(lines, q), ps)
  }

  /** Terminates for every parent relation, cycles included: each turn shrinks the unseen pids or the queue. The totals
      are those of some enumeration of the reachable pids, and so, by SumOfAnyOrder, of every one. */
  method SumProcessTree(lines: seq<Line>, root: int) returns (r: Option<Totals>)
    ensures r.None? <==> !Listed(lines, root)
    ensures r.Some? ==> exists ps :: Enumerates(lines, root, ps)
    ensures r.Some? ==> forall ps :: Enumerates(lines, root, ps) ==> SumsAlong(lines, r.value, ps)
  {
    hide LastRss, LastCpu;
    var childrenOf, rssOf, cpuOf := ReadListing(lines);
    if root !in rssOf { return None; }
    ghost var rssAt := (q: int) => LastRss(lines, q);
    ghost var cpuAt := (q: int) => LastCpu(lines, q);
    var rssKb, cpuPercent, procCount := 0.0, 0.0, 0;
    var queue := [root];
    var seen: set<int> := {};
    ghost var order: seq<int> := [];
    assert IsPath(lines, [root], root, root);
    while |queue| > 0
      invariant Walking(lines, root, seen, queue)
      invariant Distinct(order) && forall q :: q in order <==> q in seen
      invariant rssKb == Sum(rssAt, order) && cpuPercent == Sum(cpuAt, order) && procCount == |order|
      decreases rssOf.Keys - seen, |queue|
    {
      var pid := queue[0];
      if pid in seen {
        WalkSkips(lines, root, seen, queue);
        queue := queue[1..];
        continue;
      }
      var children := if pid in childrenOf then childrenOf[pid] else [];
      WalkVisits(lines, root, seen, queue, children);
      SumAdd(rssAt, order, pid);
      SumAdd(cpuAt, order, pid);
      assert pid in queue && pid in rssOf;
      seen := seen + {pid};
      order := order + [pid];
      rssKb := rssKb + (if pid in rssOf then rssOf[pid] else 0.0);
      cpuPercent := cpuPercent + (if pid in cpuOf then cpuOf[pid] else 0.0);
      procCount := procCount + 1;
      queue := queue[1..] + children;
    }
    WalkEnds(lines, root, seen);
    r := Some(Totals(rssKb, cpuPercent, procCount));
    assert Enumerates(lines, root, order) && SumsAlong(lines, r.value, order);
    forall ps | Enumerates(lines, root, ps) ensures SumsAlong(lines, r.value, ps) {
      SumOfAnyOrder(rssAt, order, ps);
      SumOfAnyOrder(cpuAt, order, ps);
      SumOfAnyOrder(_ => 1.0, order, ps);
      SumOfOnes(order);
      SumOfOnes(ps);
    }
  }

  /** A root without children: its own numbers, and one process. */
  lemma LoneRoot(l: Line, r: Totals)
    requires Usable(l) && l.pid != l.ppid
    requires forall ps :: Enumerates([l], l.pid.value, ps) ==> SumsAlong([l], r, ps)
    ensures r == Totals(l.rss, l.cpu, 1)
  {
    var lines, root := [l], l.pid.value;
    assert IsPath(lines, [root], root, root);
    forall q | Reachable(lines, root, q) ensures q == root {
      var path :| IsPath(lines, path, root, q);
      assert !IsChild(lines, root, path[|path| - 1]) && (|path| > 1 ==> !IsChild(lines, root, path[1]));
    }
    assert Enumerates(lines, root, [root]);
    var rssAt, cpuAt := (q: int) => LastRss(lines, q), (q: int) => LastCpu(lines, q);
    SumAdd(rssAt, [], root);
    SumAdd(cpuAt, [], root);
    LastLineDecides(lines, 0);
    assert [] + [root] == [root];
  }
}
