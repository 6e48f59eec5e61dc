/** The list of registered workers, in which the TURN paths take turns. */
module WorkerList {
  /** A worker: its slot, which incarnation of it this is, and its TURN path by rank in the order of
      path names. */
  datatype Worker = Worker(id: nat, incarnation: nat, path: nat)

  /** The workers of one path, in list order. */
  function OfPath(ws: seq<Worker>, path: nat): (r: seq<Worker>)
    ensures |r| <= |ws|
    ensures forall i :: 0 <= i < |r| ==> r[i].path == path
  {
    if ws == [] then []
    else
      var last := |ws| - 1;
      OfPath(ws[..last], path) + (if ws[last].path == path then [ws[last]] else [])
  }

  /** How many workers of its own path stand before a worker. */
  function Rank(ws: seq<Worker>, i: nat): nat
    requires i < |ws|
  {
    |OfPath(ws[..i], ws[i].path)|
  }

  predicate Before(rankA: nat, pathA: nat, rankB: nat, pathB: nat) {
    rankA < rankB || (rankA == rankB && pathA < pathB)
  }

  /** The first workers of all paths, then the second ones, and so on; each time in path order. */
  ghost predicate Interleaved(ws: seq<Worker>) {
    forall i, j :: 0 <= i < j < |ws| ==> Before(Rank(ws, i), ws[i].path, Rank(ws, j), ws[j].path)
  }

  ghost predicate IdsAscend(ws: seq<Worker>) {
    forall i, j :: 0 <= i < j < |ws| ==> ws[i].id <= ws[j].id
  }

  ghost predicate PathsAscend(ws: seq<Worker>) {
    forall p :: IdsAscend(OfPath(ws, p))
  }

  ghost predicate Distinct(m: multiset<Worker>) {
    && (forall x :: x in m ==> m[x] == 1)
    && (forall x, y :: x in m && y in m && x.id == y.id ==> x == y)
  }

  // ---------------------------------------------------------------- paths of a list

  lemma OfPathLast(ws: seq<Worker>, w: Worker, path: nat)
    ensures OfPath(ws + [w], path) == OfPath(ws, path) + (if w.path == path then [w] else [])
  {
    assert (ws + [w])[..|ws|] == ws;
  }

  lemma OfPathPrefix(ws: seq<Worker>, k: nat, path: nat)
    requires k < |ws|
    ensures OfPath(ws[..k + 1], path)
            == OfPath(ws[..k], path) + (if ws[k].path == path then [ws[k]] else [])
  {
    assert ws[..k + 1] == ws[..k] + [ws[k]];
    OfPathLast(ws[..k], ws[k], path);
  }

  lemma {:induction false} OfPathGrows(ws: seq<Worker>, j: nat, k: nat, path: nat)
    requires j <= k <= |ws|
    ensures OfPath(ws[..j], path) <= OfPath(ws[..k], path)
    decreases k
  {
    if j < k {
      OfPathGrows(ws, j, k - 1, path);
      OfPathPrefix(ws, k - 1, path);
    }
  }

  /** A worker is the one of its path that its rank says. */
  lemma AtRank(ws: seq<Worker>, i: nat)
    requires i < |ws|
    ensures Rank(ws, i) < |OfPath(ws, ws[i].path)| && OfPath(ws, ws[i].path)[Rank(ws, i)] == ws[i]
  {
    OfPathPrefix(ws, i, ws[i].path);
    OfPathGrows(ws, i + 1, |ws|, ws[i].path);
    assert ws[..|ws|] == ws;
    hide OfPath;
  }

  /** If a path has more workers than stand before `k`, the next one of it is found behind. */
  lemma {:induction false} NextOfPath(ws: seq<Worker>, k: nat, path: nat) returns (j: nat)
    requires k <= |ws| && |OfPath(ws, path)| > |OfPath(ws[..k], path)|
    ensures k <= j < |ws| && ws[j].path == path && Rank(ws, j) == |OfPath(ws[..k], path)|
    decreases |ws| - k
  {
    assert ws[..|ws|] == ws;
    if k == |ws| {
      assert false;
    }
    OfPathPrefix(ws, k, path);
    if ws[k].path == path {
      j := k;
    } else {
      hide OfPath;
      j := NextOfPath(ws, k + 1, path);
    }
  }

  /** The latest worker of a path before `k`. */
  lemma {:induction false} LatestOfPath(ws: seq<Worker>, k: nat, path: nat) returns (i: nat)
    requires k <= |ws| && OfPath(ws[..k], path) != []
    ensures i < k && ws[i].path == path && Rank(ws, i) == |OfPath(ws[..k], path)| - 1
    decreases k
  {
    if k == 0 {
      assert false;
    }
    OfPathPrefix(ws, k - 1, path);
    if ws[k - 1].path == path {
      i := k - 1;
    } else {
      hide OfPath;
      i := LatestOfPath(ws, k - 1, path);
    }
  }

  /** In every prefix, no path is more than one worker ahead of a path that has workers left. */
  lemma PathsTakeTurns(ws: seq<Worker>, k: nat, p: nat, q: nat)
    requires Interleaved(ws) && k <= |ws|
    requires |OfPath(ws, q)| > |OfPath(ws[..k], q)|
    ensures |OfPath(ws[..k], p)| <= |OfPath(ws[..k], q)| + 1
  {
    hide OfPath;
    hide Rank;
    if OfPath(ws[..k], p) != [] {
      var i := LatestOfPath(ws, k, p);
      var j := NextOfPath(ws, k, q);
    }
  }

  lemma {:induction false} CountOfPath(ws: seq<Worker>, path: nat, x: Worker)
    ensures multiset(OfPath(ws, path))[x] == if x.path == path then multiset(ws)[x] else 0
  {
    if ws != [] {
      var init, w := ws[..|ws| - 1], ws[|ws| - 1];
      CountOfPath(init, path, x);
      assert ws == init + [w];
    }
  }

  /** Equal paths mean the same workers. */
  lemma SamePathsSameWorkers(a: seq<Worker>, b: seq<Worker>)
    requires forall p :: OfPath(a, p) == OfPath(b, p)
    ensures multiset(a) == multiset(b)
  {
    forall x: Worker
      ensures multiset(a)[x] == multiset(b)[x]
    {
      CountOfPath(a, x.path, x);
      CountOfPath(b, x.path, x);
    }
  }

  // ---------------------------------------------------------------- the order is determined

  /** The list is determined by what the paths are: there is one way of taking turns. */
  lemma {:induction false} PathsDetermine(a: seq<Worker>, b: seq<Worker>, k: nat)
    requires Interleaved(a) && Interleaved(b) && |a| == |b| && k <= |a|
    requires forall p :: OfPath(a, p) == OfPath(b, p)
    ensures a[..k] == b[..k]
    decreases k
  {
    if k > 0 {
      PathsDetermine(a, b, k - 1);
      SameAt(a, b, k - 1);
      assert a[..k] == a[..k - 1] + [a[k - 1]];
      assert b[..k] == b[..k - 1] + [b[k - 1]];
    }
  }

  lemma SameAt(a: seq<Worker>, b: seq<Worker>, k: nat)
    requires Interleaved(a) && Interleaved(b) && |a| == |b| && k < |a|
    requires a[..k] == b[..k]
    requires forall p :: OfPath(a, p) == OfPath(b, p)
    ensures a[k] == b[k]
  {
    var p, q := a[k].path, b[k].path;
    assert OfPath(a, p) == OfPath(b, p) && OfPath(a, q) == OfPath(b, q);
    AtRank(a, k);
    AtRank(b, k);
    hide Interleaved;
    SamePathAt(a, b, k);
  }

  lemma InOrderAt(ws: seq<Worker>, i: nat, j: nat)
    requires Interleaved(ws) && i <= j < |ws|
    ensures i == j || Before(Rank(ws, i), ws[i].path, Rank(ws, j), ws[j].path)
  {
    hide Rank;
  }

  lemma SamePathAt(a: seq<Worker>, b: seq<Worker>, k: nat)
    requires Interleaved(a) && Interleaved(b) && k < |a| && k < |b|
    requires a[..k] == b[..k]
    requires |OfPath(b, a[k].path)| > Rank(a, k) && |OfPath(a, b[k].path)| > Rank(b, k)
    ensures a[k].path == b[k].path
  {
    var p, q := a[k].path, b[k].path;
    assert Rank(a, k) == |OfPath(b[..k], p)| && Rank(b, k) == |OfPath(a[..k], q)|;
    hide OfPath;
    hide Rank;
    if p != q {
      var j := NextOfPath(b, k, p);
      var i := NextOfPath(a, k, q);
      InOrderAt(b, k, j);
      InOrderAt(a, k, i);
      assert false;
    }
  }

  /** Sequences of distinct ids in ascending order are equal when they hold the same workers. */
  lemma {:induction false} AscendingUnique(a: seq<Worker>, b: seq<Worker>)
    requires IdsAscend(a) && IdsAscend(b) && multiset(a) == multiset(b) && Distinct(multiset(a))
    ensures a == b
    decreases |a|
  {
    if a == [] {
      assert multiset(b) == multiset{};
    } else {
      assert |multiset(a)| == |multiset(b)|;
      SameHead(a, b);
      TailOf(a);
      TailOf(b);
      hide IdsAscend;
      hide Distinct;
      assert multiset(a[1..]) == multiset(b[1..]);
      AscendingUnique(a[1..], b[1..]);
    }
  }

  lemma SameHead(a: seq<Worker>, b: seq<Worker>)
    requires IdsAscend(a) && IdsAscend(b) && multiset(a) == multiset(b) && Distinct(multiset(a))
    requires a != [] && b != []
    ensures a[0] == b[0]
  {
    assert a[0] in multiset(b) && b[0] in multiset(a);
    var i :| 0 <= i < |b| && b[i] == a[0];
    var j :| 0 <= j < |a| && a[j] == b[0];
    assert b[0].id <= b[i].id && a[0].id <= a[j].id;
  }

  lemma TailOf(a: seq<Worker>)
    requires a != []
    ensures a == [a[0]] + a[1..] && multiset(a[1..]) == multiset(a) - multiset{a[0]}
    ensures IdsAscend(a) ==> IdsAscend(a[1..])
    ensures Distinct(multiset(a)) ==> Distinct(multiset(a[1..]))
  {
    assert a == [a[0]] + a[1..];
    assert multiset(a) == multiset{a[0]} + multiset(a[1..]);
    if Distinct(multiset(a)) {
      FewerDistinct(multiset(a), multiset(a[1..]));
    }
    hide Distinct;
  }

  lemma FewerDistinct(m: multiset<Worker>, fewer: multiset<Worker>)
    requires Distinct(m) && fewer <= m
    ensures Distinct(fewer)
  {
    forall x | x in fewer
      ensures fewer[x] == 1
    {
      assert m[x] == 1;
    }
  }

  /** Two properly ordered lists of the same workers are the same list, so the list depends only on
      who is registered, not on how it came about. */
  lemma OrderIsUnique(a: seq<Worker>, b: seq<Worker>)
    requires Interleaved(a) && PathsAscend(a) && Interleaved(b) && PathsAscend(b)
    requires multiset(a) == multiset(b) && Distinct(multiset(a))
    ensures a == b
  {
    forall p
      ensures OfPath(a, p) == OfPath(b, p)
    {
      forall x: Worker
        ensures multiset(OfPath(a, p))[x] == multiset(OfPath(b, p))[x]
      {
        CountOfPath(a, p, x);
        CountOfPath(b, p, x);
      }
      DistinctPath(a, p);
      AscendingUnique(OfPath(a, p), OfPath(b, p));
    }
    assert |multiset(a)| == |multiset(b)|;
    PathsDetermine(a, b, |a|);
    assert a[..|a|] == a && b[..|b|] == b;
  }

  lemma DistinctPath(ws: seq<Worker>, path: nat)
    requires Distinct(multiset(ws))
    ensures Distinct(multiset(OfPath(ws, path)))
  {
    var m := multiset(OfPath(ws, path));
    forall x: Worker
      ensures m[x] == if x.path == path then multiset(ws)[x] else 0
    {
      CountOfPath(ws, path, x);
    }
    assert forall x: Worker :: x in m ==> x in multiset(ws);
  }

  // ---------------------------------------------------------------- sorting

  predicate AtMost(a: Worker, b: Worker) {
    a.path < b.path || (a.path == b.path && a.id <= b.id)
  }

  ghost predicate IsSorted(ws: seq<Worker>) {
    forall i, j :: 0 <= i < j < |ws| ==> AtMost(ws[i], ws[j])
  }

  function Insert(ws: seq<Worker>, w: Worker): (r: seq<Worker>)
    ensures multiset(r) == multiset(ws) + multiset{w}
  {
    if ws == [] || AtMost(w, ws[0]) then [w] + ws
    else
      assert ws == [ws[0]] + ws[1..];
      [ws[0]] + Insert(ws[1..], w)
  }

  lemma {:induction false} InsertSorted(ws: seq<Worker>, w: Worker)
    requires IsSorted(ws)
    ensures IsSorted(Insert(ws, w))
  {
    if ws != [] && !AtMost(w, ws[0]) {
      var rest := Insert(ws[1..], w);
      InsertSorted(ws[1..], w);
      forall i | 0 <= i < |rest|
        ensures AtMost(ws[0], rest[i])
      {
        assert rest[i] in multiset(rest);
        if rest[i] != w {
          assert rest[i] in multiset(ws[1..]);
          var j :| 0 <= j < |ws[1..]| && ws[1..][j] == rest[i];
        }
      }
    }
  }

  /** The list sorted by path and id. */
  function Sorted(ws: seq<Worker>): (r: seq<Worker>)
    ensures multiset(r) == multiset(ws) && IsSorted(r)
  {
    if ws == [] then []
    else
      assert ws == [ws[0]] + ws[1..];
      InsertSorted(Sorted(ws[1..]), ws[0]);
      Insert(Sorted(ws[1..]), ws[0])
  }

  lemma {:induction false} SortedPaths(ws: seq<Worker>, path: nat)
    requires IsSorted(ws)
    ensures IdsAscend(OfPath(ws, path))
    ensures forall i :: 0 <= i < |OfPath(ws, path)| ==> OfPath(ws, path)[i] in ws
  {
    if ws != [] {
      SortedPaths(ws[..|ws| - 1], path);
    }
  }

  // ---------------------------------------------------------------- grouping and dealing

  function PathOf(group: seq<Worker>): nat {
    if group == [] then 0 else group[0].path
  }

  ghost predicate HasGroup(groups: seq<seq<Worker>>, path: nat) {
    exists h :: 0 <= h < |groups| && PathOf(groups[h]) == path
  }

  /** The groups are the paths of the list, in path order. */
  ghost predicate Grouped(groups: seq<seq<Worker>>, ws: seq<Worker>) {
    && (forall h :: 0 <= h < |groups| ==>
          groups[h] != [] && groups[h] == OfPath(ws, PathOf(groups[h])))
    && (forall g, h :: 0 <= g < h < |groups| ==> PathOf(groups[g]) < PathOf(groups[h]))
    && (forall p :: OfPath(ws, p) != [] ==> HasGroup(groups, p))
  }

  method GroupByPath(sorted: seq<Worker>) returns (groups: seq<seq<Worker>>)
    requires IsSorted(sorted)
    ensures Grouped(groups, sorted)
  {
    hide Grouped;
    hide OfPath;
    groups := [];
    var k := 0;
    NothingGrouped();
    while k < |sorted|
      invariant k <= |sorted| && Grouped(groups, sorted[..k])
      invariant if k == 0 then groups == []
                else groups != [] && PathOf(groups[|groups| - 1]) == sorted[k - 1].path
    {
      var w, last := sorted[k], |groups| - 1;
      assert sorted[..k + 1] == sorted[..k] + [w];
      if groups != [] && PathOf(groups[last]) == w.path {
        GroupGrows(groups, sorted[..k], w);
        groups := groups[..last] + [groups[last] + [w]];
      } else {
        assert k > 0 ==> AtMost(sorted[k - 1], w);
        GroupOpens(groups, sorted[..k], w);
        groups := groups + [[w]];
      }
      k := k + 1;
    }
    assert sorted[..k] == sorted;
  }

  lemma NothingGrouped()
    ensures Grouped([], [])
  {
  }

  lemma GroupGrows(groups: seq<seq<Worker>>, ws: seq<Worker>, w: Worker)
    requires Grouped(groups, ws) && groups != [] && PathOf(groups[|groups| - 1]) == w.path
    ensures Grouped(groups[..|groups| - 1] + [groups[|groups| - 1] + [w]], ws + [w])
    ensures PathOf(groups[|groups| - 1] + [w]) == w.path
  {
    var last := |groups| - 1;
    var after := groups[..last] + [groups[last] + [w]];
    forall p
      ensures OfPath(ws + [w], p) == OfPath(ws, p) + (if w.path == p then [w] else [])
    {
      OfPathLast(ws, w, p);
    }
    hide OfPath;
    assert forall h :: 0 <= h < |groups| ==> PathOf(after[h]) == PathOf(groups[h]);
    forall p | OfPath(ws + [w], p) != []
      ensures HasGroup(after, p)
    {
      assert HasGroup(groups, p);
    }
  }

  lemma GroupOpens(groups: seq<seq<Worker>>, ws: seq<Worker>, w: Worker)
    requires Grouped(groups, ws)
    requires groups == [] || PathOf(groups[|groups| - 1]) < w.path
    ensures Grouped(groups + [[w]], ws + [w])
  {
    var after := groups + [[w]];
    PathIsNew(groups, ws, w);
    forall h | 0 <= h < |after|
      ensures after[h] != [] && after[h] == OfPath(ws + [w], PathOf(after[h]))
    {
      OpenedGroup(groups, ws, w, h);
    }
    forall p | OfPath(ws + [w], p) != []
      ensures HasGroup(after, p)
    {
      OfPathLast(ws, w, p);
      MoreGroups(groups, [w], p);
    }
    hide OfPath;
    hide HasGroup;
    OpenedOrder(groups, w);
  }

  lemma OpenedGroup(groups: seq<seq<Worker>>, ws: seq<Worker>, w: Worker, h: nat)
    requires Grouped(groups, ws) && OfPath(ws, w.path) == [] && h <= |groups|
    requires forall g :: 0 <= g < |groups| ==> PathOf(groups[g]) < w.path
    ensures var group := (groups + [[w]])[h]; group != [] && group == OfPath(ws + [w], PathOf(group))
  {
    hide HasGroup;
    OfPathLast(ws, w, PathOf((groups + [[w]])[h]));
    hide OfPath;
  }

  lemma OpenedOrder(groups: seq<seq<Worker>>, w: Worker)
    requires forall g, h :: 0 <= g < h < |groups| ==> PathOf(groups[g]) < PathOf(groups[h])
    requires forall g :: 0 <= g < |groups| ==> PathOf(groups[g]) < w.path
    ensures var after := groups + [[w]];
            forall g, h :: 0 <= g < h < |after| ==> PathOf(after[g]) < PathOf(after[h])
  {
    assert PathOf([w]) == w.path;
    hide PathOf;
  }

  lemma PathIsNew(groups: seq<seq<Worker>>, ws: seq<Worker>, w: Worker)
    requires Grouped(groups, ws)
    requires groups == [] || PathOf(groups[|groups| - 1]) < w.path
    ensures forall h :: 0 <= h < |groups| ==> PathOf(groups[h]) < w.path
    ensures OfPath(ws, w.path) == []
  {
    hide OfPath;
    assert !HasGroup(groups, w.path);
  }

  lemma MoreGroups(groups: seq<seq<Worker>>, group: seq<Worker>, path: nat)
    requires HasGroup(groups, path) || PathOf(group) == path
    ensures HasGroup(groups + [group], path)
  {
    if HasGroup(groups, path) {
      var h :| 0 <= h < |groups| && PathOf(groups[h]) == path;
      assert PathOf((groups + [group])[h]) == path;
    } else {
      assert PathOf((groups + [group])[|groups|]) == path;
    }
  }

  /** How many workers of group `h` have been dealt when `offset` rounds and, of the next one, `g`
      groups are done. */
  function DealtOf(groups: seq<seq<Worker>>, h: nat, offset: nat, g: nat): (n: nat)
    requires h < |groups|
    ensures n <= |groups[h]|
  {
    var n := offset + (if h < g then 1 else 0);
    if n <= |groups[h]| then n else |groups[h]|
  }

  ghost predicate Dealt(r: seq<Worker>, groups: seq<seq<Worker>>, offset: nat, g: nat) {
    && (forall h :: 0 <= h < |groups| ==>
          OfPath(r, PathOf(groups[h])) == groups[h][..DealtOf(groups, h, offset, g)])
    && (forall p :: OfPath(r, p) != [] ==> HasGroup(groups, p))
  }

  ghost predicate InOrder(r: seq<Worker>, groups: seq<seq<Worker>>, offset: nat, g: nat) {
    && Interleaved(r)
    && (forall i :: 0 <= i < |r| ==> Rank(r, i) <= offset)
    && (forall i, h :: 0 <= i < |r| && g <= h < |groups| ==>
          Before(Rank(r, i), r[i].path, offset, PathOf(groups[h])))
  }

  lemma DealOne(r: seq<Worker>, groups: seq<seq<Worker>>, ws: seq<Worker>, offset: nat, g: nat)
    requires Grouped(groups, ws) && g < |groups| && offset < |groups[g]|
    requires Dealt(r, groups, offset, g) && InOrder(r, groups, offset, g)
    ensures Dealt(r + [groups[g][offset]], groups, offset, g + 1)
    ensures InOrder(r + [groups[g][offset]], groups, offset, g + 1)
    ensures offset < |ws|
  {
    var w := groups[g][offset];
    assert w.path == PathOf(groups[g]);
    DealOnePaths(r, groups, ws, offset, g);
    var after := r + [w];
    assert DealtOf(groups, g, offset, g) == offset;
    assert OfPath(r, w.path) == groups[g][..offset];
    hide Dealt;
    hide OfPath;
    assert after[..|r|] == r;
    assert Rank(after, |r|) == offset;
    forall i | 0 <= i < |r|
      ensures Rank(after, i) == Rank(r, i)
    {
      assert after[..i] == r[..i];
    }
    hide Rank;
    OrderExtends(r, w, groups, offset, g);
  }

  /** The next worker dealt comes after all before it. */
  lemma OrderExtends(r: seq<Worker>, w: Worker, groups: seq<seq<Worker>>, offset: nat, g: nat)
    requires g < |groups| && w.path == PathOf(groups[g]) && InOrder(r, groups, offset, g)
    requires forall h :: g < h < |groups| ==> w.path < PathOf(groups[h])
    requires Rank(r + [w], |r|) == offset
    requires forall i :: 0 <= i < |r| ==> Rank(r + [w], i) == Rank(r, i)
    ensures InOrder(r + [w], groups, offset, g + 1)
  {
    hide Rank;
    hide PathOf;
    var after := r + [w];
    assert forall i :: 0 <= i < |r| ==> after[i] == r[i];
    forall i | 0 <= i < |r|
      ensures Before(Rank(after, i), after[i].path, offset, w.path)
    {
      assert Before(Rank(r, i), r[i].path, offset, PathOf(groups[g]));
    }
  }

  lemma DealOnePaths(r: seq<Worker>, groups: seq<seq<Worker>>, ws: seq<Worker>, offset: nat, g: nat)
    requires Grouped(groups, ws) && g < |groups| && offset < |groups[g]|
    requires Dealt(r, groups, offset, g)
    ensures Dealt(r + [groups[g][offset]], groups, offset, g + 1)
  {
    var w := groups[g][offset];
    assert w.path == PathOf(groups[g]);
    forall p
      ensures OfPath(r + [w], p) == OfPath(r, p) + (if w.path == p then [w] else [])
    {
      OfPathLast(r, w, p);
    }
    hide OfPath;
    assert HasGroup(groups, w.path);
    hide HasGroup;
    forall h | 0 <= h < |groups|
      ensures OfPath(r + [w], PathOf(groups[h])) == groups[h][..DealtOf(groups, h, offset, g + 1)]
    {
      if h == g {
        assert groups[g][..offset + 1] == groups[g][..offset] + [w];
      } else {
        assert PathOf(groups[h]) != w.path;
      }
    }
  }

  /** The workers are dealt out in rounds, one of each path a round: the same workers, the paths taking
      turns, each path in the order of its ids. */
  method InterleaveTurnPaths(workers: seq<Worker>) returns (r: seq<Worker>)
    ensures multiset(r) == multiset(workers) && Interleaved(r) && PathsAscend(r)
  {
    var sorted := Sorted(workers);
    hide Sorted;
    hide IsSorted;
    hide Interleaved;
    hide PathsAscend;
    var groups := GroupByPath(sorted);
    NothingDealt(groups);
    hide OfPath;
    hide Dealt;
    hide InOrder;
    hide Grouped;
    r := [];
    var offset := 0;
    while true
      invariant Dealt(r, groups, offset, 0) && InOrder(r, groups, offset, 0)
      invariant offset <= |sorted|
      decreases |sorted| - offset
    {
      var added, g := false, 0;
      while g < |groups|
        invariant g <= |groups|
        invariant Dealt(r, groups, offset, g) && InOrder(r, groups, offset, g)
        invariant added ==> offset < |sorted|
        invariant !added ==> AllShort(groups, g, offset)
      {
        if offset < |groups[g]| {
          DealOne(r, groups, sorted, offset, g);
          r := r + [groups[g][offset]];
          added := true;
        } else {
          DealNone(r, groups, offset, g);
        }
        g := g + 1;
      }
      if !added {
        AllDealt(r, groups, sorted, offset);
        return;
      }
      NextRound(r, groups, offset);
      offset := offset + 1;
    }
  }

  predicate AllShort(groups: seq<seq<Worker>>, g: nat, offset: nat) {
    g <= |groups| && forall h :: 0 <= h < g ==> |groups[h]| <= offset
  }

  lemma DealNone(r: seq<Worker>, groups: seq<seq<Worker>>, offset: nat, g: nat)
    requires g < |groups| && |groups[g]| <= offset
    requires Dealt(r, groups, offset, g) && InOrder(r, groups, offset, g)
    ensures Dealt(r, groups, offset, g + 1) && InOrder(r, groups, offset, g + 1)
  {
    hide OfPath;
    hide Rank;
    assert forall h :: 0 <= h < |groups| ==>
      DealtOf(groups, h, offset, g + 1) == DealtOf(groups, h, offset, g);
  }

  lemma NothingDealt(groups: seq<seq<Worker>>)
    ensures Dealt([], groups, 0, 0) && InOrder([], groups, 0, 0)
  {
  }

  lemma NextRound(r: seq<Worker>, groups: seq<seq<Worker>>, offset: nat)
    requires Dealt(r, groups, offset, |groups|) && InOrder(r, groups, offset, |groups|)
    ensures Dealt(r, groups, offset + 1, 0) && InOrder(r, groups, offset + 1, 0)
  {
    hide OfPath;
    hide Rank;
    assert forall h :: 0 <= h < |groups| ==>
      DealtOf(groups, h, offset + 1, 0) == DealtOf(groups, h, offset, |groups|);
  }

  lemma AllDealt(r: seq<Worker>, groups: seq<seq<Worker>>, sorted: seq<Worker>, offset: nat)
    requires Grouped(groups, sorted) && IsSorted(sorted)
    requires Dealt(r, groups, offset, |groups|) && InOrder(r, groups, offset, |groups|)
    requires AllShort(groups, |groups|, offset)
    ensures multiset(r) == multiset(sorted) && Interleaved(r) && PathsAscend(r)
  {
    forall p
      ensures OfPath(r, p) == OfPath(sorted, p) && IdsAscend(OfPath(r, p))
    {
      SortedPaths(sorted, p);
      hide OfPath;
      if h :| 0 <= h < |groups| && PathOf(groups[h]) == p {
        assert groups[h][..|groups[h]|] == groups[h];
      } else {
        assert !HasGroup(groups, p);
      }
    }
    SamePathsSameWorkers(r, sorted);
  }

  // ---------------------------------------------------------------- registration

  function Filter<T>(s: seq<T>, keep: T -> bool): seq<T> {
    if s == [] then [] else (if keep(s[0]) then [s[0]] else []) + Filter(s[1..], keep)
  }

  lemma {:induction false} FilterCount<T>(s: seq<T>, keep: T -> bool, x: T)
    ensures multiset(Filter(s, keep))[x] == if keep(x) then multiset(s)[x] else 0
  {
    if s != [] {
      FilterCount(s[1..], keep, x);
      assert s == [s[0]] + s[1..];
    }
  }

  class Dispatcher {
    var workers: seq<Worker>

    /** Distinct ids, and paths taking turns. */
    ghost predicate Valid()
      reads this
    {
      Interleaved(workers) && PathsAscend(workers) && Distinct(multiset(workers))
    }

    constructor ()
      ensures Valid() && workers == []
    {
      workers := [];
    }

    /** The worker takes the place of any earlier incarnation; nobody else is touched. */
    method Register(w: Worker)
      requires Valid()
      modifies this
      ensures Valid()
      ensures forall x :: x in workers <==> x == w || (x in old(workers) && x.id != w.id)
    {
      var updated := Filter(workers, (x: Worker) => x.id != w.id);
      Registered(workers, w);
      hide Filter;
      workers := InterleaveTurnPaths(updated + [w]);
      assert forall x :: x in workers <==> x in multiset(workers);
    }

    /** Only this incarnation is removed; a call that comes too late changes nothing at all. */
    method Unregister(id: nat, incarnation: nat)
      requires Valid()
      modifies this
      ensures Valid()
      ensures forall x :: x in workers <==> x in old(workers) && (x.id != id || x.incarnation != incarnation)
      ensures (forall x :: x in old(workers) && x.id == id ==> x.incarnation != incarnation)
              ==> workers == old(workers)
    {
      var updated := Filter(workers, (x: Worker) => x.id != id || x.incarnation != incarnation);
      Unregistered(workers, id, incarnation);
      hide Filter;
      ghost var before := workers;
      workers := InterleaveTurnPaths(updated);
      assert forall x :: x in workers <==> x in multiset(workers);
      if multiset(workers) == multiset(before) {
        OrderIsUnique(workers, before);
      }
    }
  }

  lemma KeptAreDistinct(ws: seq<Worker>, keep: Worker -> bool)
    requires Distinct(multiset(ws))
    ensures var m := multiset(Filter(ws, keep));
            && Distinct(m) && (forall x: Worker :: m[x] == if keep(x) then multiset(ws)[x] else 0)
  {
    var m := multiset(Filter(ws, keep));
    forall x: Worker
      ensures m[x] == if keep(x) then multiset(ws)[x] else 0
    {
      FilterCount(ws, keep, x);
    }
    hide Filter;
    assert forall x :: x in m ==> x in multiset(ws);
  }

  lemma Registered(ws: seq<Worker>, w: Worker)
    requires Distinct(multiset(ws))
    ensures var m := multiset(Filter(ws, (x: Worker) => x.id != w.id) + [w]);
            Distinct(m) && (forall x :: x in m <==> x == w || (x in ws && x.id != w.id))
  {
    var keep := (x: Worker) => x.id != w.id;
    KeptAreDistinct(ws, keep);
    hide Filter;
    var kept := Filter(ws, keep);
    assert multiset(kept + [w]) == multiset(kept) + multiset{w};
    assert forall x :: x in ws <==> x in multiset(ws);
  }

  lemma Unregistered(ws: seq<Worker>, id: nat, incarnation: nat)
    requires Distinct(multiset(ws))
    ensures var m := multiset(Filter(ws, (x: Worker) => x.id != id || x.incarnation != incarnation));
            && Distinct(m)
            && (forall x :: x in m <==> x in ws && (x.id != id || x.incarnation != incarnation))
            && ((forall x :: x in ws && x.id == id ==> x.incarnation != incarnation) ==> m == multiset(ws))
  {
    var keep := (x: Worker) => x.id != id || x.incarnation != incarnation;
    KeptAreDistinct(ws, keep);
    hide Filter;
    hide Distinct;
    assert forall x :: x in ws <==> x in multiset(ws);
  }
}
