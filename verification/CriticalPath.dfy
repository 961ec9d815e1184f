/** The critical-path forward pass over an interval order, and why it is the optimum.

    A node's interval runs from its readiness to its terminal offset. One node may precede
    another when it was terminal no later than the other became ready. */
module CriticalPath {
  import opened Text

  datatype Timeline = Timeline(
    contribution: map<string, nat>,
    readyAt: map<string, nat>,
    terminalAt: map<string, nat>)

  function Nodes(t: Timeline): set<string> {
    t.contribution.Keys + t.readyAt.Keys + t.terminalAt.Keys
  }

  /** A node without a readiness record counts as ready when terminal, or at 0. */
  function ReadyOf(t: Timeline, n: string): nat {
    if n in t.readyAt then t.readyAt[n]
    else if n in t.terminalAt then t.terminalAt[n]
    else 0
  }

  function ContributionOf(t: Timeline, n: string): nat {
    if n in t.contribution then t.contribution[n] else 0
  }

  predicate Precedes(t: Timeline, u: string, v: string) {
    u in t.terminalAt && t.terminalAt[u] <= ReadyOf(t, v)
  }

  // ---- The forward pass ----------------------------------------------------

  /** Stable insertion by readiness, so equal readiness keeps the order of names. */
  function InsertByReady(t: Timeline, n: string, ns: seq<string>): seq<string> {
    if ns == [] || ReadyOf(t, n) < ReadyOf(t, ns[0]) then [n] + ns
    else [ns[0]] + InsertByReady(t, n, ns[1..])
  }

  function SortByReady(t: Timeline, ns: seq<string>): seq<string> {
    if ns == [] then []
    else InsertByReady(t, ns[|ns| - 1], SortByReady(t, ns[..|ns| - 1]))
  }

  /** The largest path value among the resolved predecessors of `v` in `us`. */
  function BaseOver(t: Timeline, cp: map<string, nat>, v: string, us: seq<string>): nat {
    if us == [] then 0
    else
      var base := BaseOver(t, cp, v, us[..|us| - 1]);
      var u := us[|us| - 1];
      if u != v && u in cp && Precedes(t, u, v) && base < cp[u] then cp[u] else base
  }

  datatype Pass = Pass(cp: map<string, nat>, best: nat)

  function Visit(t: Timeline, p: Pass, v: string): Pass {
    var value := BaseOver(t, p.cp, v, Sorted(p.cp.Keys)) + ContributionOf(t, v);
    Pass(p.cp[v := value], if p.best < value then value else p.best)
  }

  function Forward(t: Timeline, order: seq<string>): Pass {
    if order == [] then Pass(map[], 0)
    else Visit(t, Forward(t, order[..|order| - 1]), order[|order| - 1])
  }

  function CriticalPathOf(t: Timeline): nat {
    Forward(t, SortByReady(t, Sorted(Nodes(t)))).best
  }

  // ---- Chains: the independent meaning -------------------------------------

  predicate IsChain(t: Timeline, c: seq<string>) {
    && (forall n <- c :: n in Nodes(t))
    && (forall i :: 0 < i < |c| ==> Precedes(t, c[i - 1], c[i]))
  }

  /** A chain that visits no node twice, as every dependency path is. */
  predicate IsPath(t: Timeline, c: seq<string>) { IsChain(t, c) && Distinct(c) }

  function Weight(t: Timeline, c: seq<string>): nat {
    if c == [] then 0 else Weight(t, c[..|c| - 1]) + ContributionOf(t, c[|c| - 1])
  }

  /** `w` is the largest weight any path has. */
  ghost predicate IsLongest(t: Timeline, w: nat) {
    && (exists c :: IsPath(t, c) && Weight(t, c) == w)
    && (forall c :: IsPath(t, c) ==> Weight(t, c) <= w)
  }

  /** And no chain weighs more, even if it visits nodes twice. */
  ghost predicate IsOptimum(t: Timeline, w: nat) {
    IsLongest(t, w) && forall c :: IsChain(t, c) ==> Weight(t, c) <= w
  }

  /** Every node's work fits between its readiness and its terminal offset, and a node
      that is not terminal has done none. */
  predicate WellTimed(t: Timeline) {
    forall n :: n in Nodes(t) ==>
      if n in t.terminalAt then ReadyOf(t, n) + ContributionOf(t, n) <= t.terminalAt[n]
      else ContributionOf(t, n) == 0
  }

  // ---- The order the pass visits nodes in ----------------------------------

  predicate Distinct(ns: seq<string>) {
    forall i, j :: 0 <= i < j < |ns| ==> ns[i] != ns[j]
  }

  predicate Ascending(t: Timeline, ns: seq<string>) {
    forall i, j :: 0 <= i < j < |ns| ==> ReadyOf(t, ns[i]) <= ReadyOf(t, ns[j])
  }

  /** What optimality needs of the order; how ties are broken does not matter. */
  ghost predicate VisitOrder(t: Timeline, order: seq<string>) {
    && Distinct(order)
    && Ascending(t, order)
    && (forall n :: n in order <==> n in Nodes(t))
  }

  lemma ConsSorted(t: Timeline, x: string, ns: seq<string>)
    requires Distinct(ns) && Ascending(t, ns)
    requires x !in ns && forall n <- ns :: ReadyOf(t, x) <= ReadyOf(t, n)
    ensures Distinct([x] + ns) && Ascending(t, [x] + ns)
  {
    hide ReadyOf;
    assert forall i :: 0 <= i < |ns| ==> ns[i] in ns;
  }

  lemma TailSorted(t: Timeline, ns: seq<string>)
    requires ns != [] && Distinct(ns) && Ascending(t, ns)
    ensures Distinct(ns[1..]) && Ascending(t, ns[1..])
    ensures ns[0] !in ns[1..] && forall n <- ns[1..] :: ReadyOf(t, ns[0]) <= ReadyOf(t, n)
    ensures forall n :: n in ns <==> n == ns[0] || n in ns[1..]
  {
    hide ReadyOf;
    assert ns == [ns[0]] + ns[1..];
  }

  lemma {:induction false} InsertSorts(t: Timeline, n: string, ns: seq<string>)
    requires Distinct(ns) && Ascending(t, ns) && n !in ns
    ensures var r := InsertByReady(t, n, ns);
            Distinct(r) && Ascending(t, r) && forall m :: m in r <==> m == n || m in ns
  {
    hide ReadyOf, Distinct, Ascending;
    if ns != [] {
      TailSorted(t, ns);
      if ReadyOf(t, n) < ReadyOf(t, ns[0]) {
        ConsSorted(t, n, ns);
      } else {
        InsertSorts(t, n, ns[1..]);
        ConsSorted(t, ns[0], InsertByReady(t, n, ns[1..]));
      }
    } else {
      ConsSorted(t, n, []) by { NothingSorted(t); }
      assert [n] + [] == [n];
    }
  }

  lemma NothingSorted(t: Timeline)
    ensures Distinct([]) && Ascending(t, [])
  {}

  lemma InitDistinct(ns: seq<string>)
    requires ns != [] && Distinct(ns)
    ensures Distinct(ns[..|ns| - 1]) && ns[|ns| - 1] !in ns[..|ns| - 1]
    ensures forall n :: n in ns <==> n == ns[|ns| - 1] || n in ns[..|ns| - 1]
  {
    assert ns == ns[..|ns| - 1] + [ns[|ns| - 1]];
  }

  lemma {:induction false} SortSorts(t: Timeline, ns: seq<string>)
    requires Distinct(ns)
    ensures var r := SortByReady(t, ns);
            Distinct(r) && Ascending(t, r) && forall m :: m in r <==> m in ns
  {
    hide Ascending, Distinct, InsertByReady;
    if ns == [] {
      NothingSorted(t);
    } else {
      InitDistinct(ns);
      SortSorts(t, ns[..|ns| - 1]);
      InsertSorts(t, ns[|ns| - 1], SortByReady(t, ns[..|ns| - 1]));
    }
  }

  lemma SortIsVisitOrder(t: Timeline)
    ensures VisitOrder(t, SortByReady(t, Sorted(Nodes(t))))
  {
    hide SortByReady, ReadyOf, Nodes;
    SortSorts(t, Sorted(Nodes(t)));
  }

  // ---- Optimality ----------------------------------------------------------

  lemma BaseBounds(t: Timeline, cp: map<string, nat>, v: string, us: seq<string>)
    ensures forall u <- us :: u != v && u in cp && Precedes(t, u, v) ==> cp[u] <= BaseOver(t, cp, v, us)
    ensures BaseOver(t, cp, v, us) == 0 ||
            exists u <- us :: u != v && u in cp && Precedes(t, u, v) && cp[u] == BaseOver(t, cp, v, us)
  {
    hide Precedes;
    if us != [] {
      BaseBounds(t, cp, v, us[..|us| - 1]);
      assert us == us[..|us| - 1] + [us[|us| - 1]];
    }
  }

  /** What one visit records for a node not visited before. */
  lemma VisitRecords(t: Timeline, p: Pass, v: string)
    requires v !in p.cp
    ensures var q := Visit(t, p, v);
            && v in q.cp && q.cp.Keys == p.cp.Keys + {v}
            && (forall n <- p.cp.Keys :: q.cp[n] == p.cp[n])
            && q.cp[v] >= ContributionOf(t, v)
            && (forall u <- p.cp.Keys :: Precedes(t, u, v) ==> q.cp[v] >= p.cp[u] + ContributionOf(t, v))
            && (q.cp[v] == ContributionOf(t, v) ||
                exists u <- p.cp.Keys :: Precedes(t, u, v) && q.cp[v] == p.cp[u] + ContributionOf(t, v))
            && q.best >= p.best && q.best >= q.cp[v] && (q.best == p.best || q.best == q.cp[v])
  {
    hide Precedes, ContributionOf, BaseOver;
    BaseBounds(t, p.cp, v, Sorted(p.cp.Keys));
  }

  /** The nodes recorded are the nodes visited, and `best` is the largest value recorded. */
  lemma {:induction false} ForwardBest(t: Timeline, order: seq<string>)
    requires Distinct(order)
    ensures var p := Forward(t, order);
            && (forall n :: n in p.cp <==> n in order)
            && (forall n <- order :: p.cp[n] <= p.best)
            && (p.best == 0 || exists n <- order :: p.cp[n] == p.best)
  {
    hide Distinct, Visit, Precedes, ContributionOf;
    if order != [] {
      var before, v := order[..|order| - 1], order[|order| - 1];
      InitDistinct(order);
      ForwardBest(t, before);
      VisitRecords(t, Forward(t, before), v);
    }
  }

  /** The value recorded for each node covers its own work after any predecessor visited
      before it. */
  lemma {:induction false} ForwardCovers(t: Timeline, order: seq<string>, j: nat)
    requires Distinct(order) && j < |order|
    ensures var cp := Forward(t, order).cp;
            && (forall n <- order :: n in cp)
            && cp[order[j]] >= ContributionOf(t, order[j])
            && (forall i :: 0 <= i < j && Precedes(t, order[i], order[j]) ==>
                  cp[order[j]] >= cp[order[i]] + ContributionOf(t, order[j]))
  {
    hide Distinct, Visit, Precedes, ContributionOf;
    var before, v := order[..|order| - 1], order[|order| - 1];
    InitDistinct(order);
    ForwardBest(t, before);
    VisitRecords(t, Forward(t, before), v);
    assert forall i :: 0 <= i < |before| ==> order[i] == before[i] && before[i] in before;
    if j < |before| { ForwardCovers(t, before, j); }
  }

  /** No chain outweighs the value recorded at its last node. A predecessor visited later
      than its successor is tied with it in readiness, so it contributes nothing and the
      chain without it weighs the same. */
  lemma {:induction false} NoChainOutweighs(t: Timeline, order: seq<string>, c: seq<string>)
    requires WellTimed(t) && VisitOrder(t, order) && IsChain(t, c) && c != []
    ensures c[|c| - 1] in Forward(t, order).cp && Weight(t, c) <= Forward(t, order).cp[c[|c| - 1]]
    decreases |c|
  {
    hide Forward, ReadyOf, ContributionOf, Nodes, VisitOrder;
    var v := c[|c| - 1];
    Position(t, order, v);
    var j :| 0 <= j < |order| && order[j] == v;
    ForwardCovers(t, order, j) by { OrderIsDistinct(t, order); }
    if |c| == 1 {
      assert Weight(t, c[..0]) == 0;
    } else {
      var u, c' := c[|c| - 2], c[..|c| - 1];
      assert c'[|c'| - 1] == u;
      assert Precedes(t, u, v);
      Position(t, order, u);
      var i :| 0 <= i < |order| && order[i] == u;
      if i < j {
        NoChainOutweighs(t, order, c');
      } else {
        TiedContributesNothing(t, order, i, j);
        var shorter := c[..|c| - 2] + [v];
        ChainWithoutTied(t, c);
        NoChainOutweighs(t, order, shorter);
      }
    }
  }

  /** Dropping the last node but one, when it is tied with the last and contributes nothing. */
  lemma ChainWithoutTied(t: Timeline, c: seq<string>)
    requires IsChain(t, c) && |c| >= 2
    requires ReadyOf(t, c[|c| - 2]) == ReadyOf(t, c[|c| - 1]) && ContributionOf(t, c[|c| - 2]) == 0
    ensures var shorter := c[..|c| - 2] + [c[|c| - 1]]; IsChain(t, shorter) && Weight(t, shorter) == Weight(t, c)
  {
    hide Nodes, ContributionOf, ReadyOf, Weight, Precedes;
    var n := |c| - 2;
    var u, v, shorter := c[n], c[n + 1], c[..n] + [c[n + 1]];
    WeightOfLast(t, c[..n], [u, v]);
    WeightOfLast(t, c[..n], [v]);
    WeightOfTwo(t, u, v);
    assert c == c[..n] + [u, v];
    forall k | 0 < k < |shorter| ensures Precedes(t, shorter[k - 1], shorter[k]) {
      assert Precedes(t, c[k - 1], c[k]);
      if k == n { PrecedesTied(t, c[k - 1], u, v); }
    }
  }

  lemma PrecedesTied(t: Timeline, w: string, u: string, v: string)
    requires ReadyOf(t, u) == ReadyOf(t, v) && Precedes(t, w, u)
    ensures Precedes(t, w, v)
  {}

  lemma {:induction false} WeightOfLast(t: Timeline, a: seq<string>, b: seq<string>)
    ensures Weight(t, a + b) == Weight(t, a) + Weight(t, b)
  {
    hide ContributionOf;
    if b == [] {
      assert a + b == a;
    } else {
      WeightOfLast(t, a, b[..|b| - 1]);
      assert (a + b)[..|a + b| - 1] == a + b[..|b| - 1];
    }
  }

  lemma WeightOfTwo(t: Timeline, u: string, v: string)
    ensures Weight(t, [u, v]) == ContributionOf(t, u) + ContributionOf(t, v) && Weight(t, [v]) == ContributionOf(t, v)
  {
    hide ContributionOf;
    var two, one, last := [u, v], [u], [v];
    assert two[..|two| - 1] == one && one[..|one| - 1] == [] && last[..|last| - 1] == [] && Weight(t, []) == 0;
  }

  lemma OrderIsDistinct(t: Timeline, order: seq<string>)
    requires VisitOrder(t, order)
    ensures Distinct(order)
  {}

  lemma Position(t: Timeline, order: seq<string>, n: string)
    requires VisitOrder(t, order) && n in Nodes(t)
    ensures exists i :: 0 <= i < |order| && order[i] == n
  {
    assert n in order;
  }

  lemma TiedContributesNothing(t: Timeline, order: seq<string>, i: nat, j: nat)
    requires WellTimed(t) && VisitOrder(t, order) && j <= i < |order|
    requires Precedes(t, order[i], order[j])
    ensures ReadyOf(t, order[i]) == ReadyOf(t, order[j]) && ContributionOf(t, order[i]) == 0
  {
    hide ReadyOf, ContributionOf, Nodes;
    assert order[i] in order;
    if j < i { assert ReadyOf(t, order[j]) <= ReadyOf(t, order[i]); }
  }

  /** `c` is a path of visited nodes ending at `v` with exactly the recorded weight. */
  predicate Witnesses(t: Timeline, order: seq<string>, c: seq<string>, v: string, w: nat) {
    IsPath(t, c) && (forall n <- c :: n in order) && c != [] && c[|c| - 1] == v && Weight(t, c) == w
  }

  /** Some path ending at each visited node weighs exactly its recorded value. */
  lemma {:induction false} ValuesAreAttained(t: Timeline, order: seq<string>, v: string)
    requires Distinct(order) && v in order && forall n <- order :: n in Nodes(t)
    ensures v in Forward(t, order).cp
    ensures exists c :: Witnesses(t, order, c, v, Forward(t, order).cp[v])
    decreases |order|
  {
    hide Precedes, ContributionOf, Nodes, Visit, Witnesses, Distinct;
    var before, last := order[..|order| - 1], order[|order| - 1];
    var p, q := Forward(t, before), Forward(t, order);
    assert order == before + [last];
    InitDistinct(order);
    ForwardBest(t, before);
    VisitRecords(t, p, last);
    if v != last {
      ValuesAreAttained(t, before, v);
      var c :| Witnesses(t, before, c, v, p.cp[v]);
      StillWitnesses(t, before, last, c, v, p.cp[v]);
      assert Witnesses(t, order, c, v, q.cp[v]);
    } else if q.cp[v] == ContributionOf(t, v) {
      SingleChain(t, order, v);
      assert Witnesses(t, order, [v], v, q.cp[v]);
    } else {
      var u :| u in p.cp && Precedes(t, u, v) && q.cp[v] == p.cp[u] + ContributionOf(t, v);
      ValuesAreAttained(t, before, u);
      var c :| Witnesses(t, before, c, u, p.cp[u]);
      ChainGrows(t, before, c, u, v, p.cp[u]);
      assert Witnesses(t, order, c + [v], v, q.cp[v]);
    }
  }

  lemma StillWitnesses(t: Timeline, before: seq<string>, last: string, c: seq<string>, v: string, w: nat)
    requires Witnesses(t, before, c, v, w)
    ensures Witnesses(t, before + [last], c, v, w)
  {
    hide IsPath, Weight;
  }

  lemma SingleChain(t: Timeline, order: seq<string>, v: string)
    requires v in Nodes(t) && v in order
    ensures Witnesses(t, order, [v], v, ContributionOf(t, v))
  {
    assert [v][..0] == [];
    assert Weight(t, [v]) == Weight(t, [v][..0]) + ContributionOf(t, v);
  }

  lemma ChainGrows(t: Timeline, before: seq<string>, c: seq<string>, u: string, v: string, w: nat)
    requires Witnesses(t, before, c, u, w) && v in Nodes(t) && v !in before && Precedes(t, u, v)
    ensures Witnesses(t, before + [v], c + [v], v, w + ContributionOf(t, v))
  {
    hide Nodes, Precedes, ContributionOf;
    assert (c + [v])[..|c|] == c;
  }

  /** **The forward pass is optimal.** Its result is the weight of some chain, and no chain
      weighs more. */
  lemma ForwardPassIsOptimal(t: Timeline)
    requires WellTimed(t)
    ensures IsOptimum(t, CriticalPathOf(t))
  {
    hide WellTimed, SortByReady, Forward, IsChain, Nodes, VisitOrder, Distinct, Weight;
    var order := SortByReady(t, Sorted(Nodes(t)));
    SortIsVisitOrder(t);
    forall c | IsChain(t, c) ensures Weight(t, c) <= CriticalPathOf(t) { ChainIsBounded(t, order, c); }
    BestIsAttained(t, order);
  }

  lemma ChainIsBounded(t: Timeline, order: seq<string>, c: seq<string>)
    requires WellTimed(t) && VisitOrder(t, order) && IsChain(t, c)
    ensures Weight(t, c) <= Forward(t, order).best
  {
    if c == [] { assert Weight(t, c) == 0; }
    hide WellTimed, Forward, IsChain, Nodes, Ascending, Distinct, Weight;
    ForwardBest(t, order);
    if c != [] { NoChainOutweighs(t, order, c); }
  }

  /** The best value recorded is the weight of some path. */
  lemma BestIsAttained(t: Timeline, order: seq<string>)
    requires VisitOrder(t, order)
    ensures exists c :: IsPath(t, c) && Weight(t, c) == Forward(t, order).best
  {
    hide Precedes, Forward, IsPath, Nodes, Ascending, Distinct;
    ForwardBest(t, order);
    EmptyPath(t);
    var p := Forward(t, order);
    if p.best != 0 {
      var n :| n in order && p.cp[n] == p.best;
      ValuesAreAttained(t, order, n);
      var c :| Witnesses(t, order, c, n, p.best);
    }
  }

  lemma EmptyPath(t: Timeline)
    ensures IsPath(t, []) && Weight(t, []) == 0
  {}

  /** A chain's work fits between its first readiness and its last terminal offset. */
  lemma {:induction false} ChainFitsItsSpan(t: Timeline, c: seq<string>)
    requires WellTimed(t) && IsChain(t, c) && c != [] && c[|c| - 1] in t.terminalAt
    ensures ReadyOf(t, c[0]) + Weight(t, c) <= t.terminalAt[c[|c| - 1]]
  {
    hide ContributionOf, ReadyOf, Nodes;
    var c', v := c[..|c| - 1], c[|c| - 1];
    assert v in c;
    if c' == [] {
      assert Weight(t, c') == 0;
    } else {
      assert Precedes(t, c[|c| - 2], v);
      assert IsChain(t, c');
      ChainFitsItsSpan(t, c');
    }
  }

  /** With every terminal offset within the run, so is the critical path: no sum the pass
      computes can exceed the run's elapsed time. */
  lemma CriticalPathFitsTheRun(t: Timeline, elapsed: nat)
    requires WellTimed(t)
    requires forall n <- t.terminalAt.Keys :: t.terminalAt[n] <= elapsed
    ensures CriticalPathOf(t) <= elapsed
  {
    hide CriticalPathOf, ReadyOf, Precedes;
    ForwardPassIsOptimal(t);
    var c :| IsPath(t, c) && Weight(t, c) == CriticalPathOf(t);
    TrimmedChain(t, c, elapsed);
  }

  lemma {:induction false} TrimmedChain(t: Timeline, c: seq<string>, elapsed: nat)
    requires WellTimed(t) && IsChain(t, c)
    requires forall n <- t.terminalAt.Keys :: t.terminalAt[n] <= elapsed
    ensures Weight(t, c) <= elapsed
  {
    hide ReadyOf, ContributionOf, Nodes;
    if c != [] {
      var v := c[|c| - 1];
      assert v in c;
      if v in t.terminalAt {
        ChainFitsItsSpan(t, c);
      } else {
        assert IsChain(t, c[..|c| - 1]);
        TrimmedChain(t, c[..|c| - 1], elapsed);
      }
    }
  }

  // ---- When the pass is optimal, exactly -----------------------------------

  /** The order the pass visits the nodes in. */
  function OrderOf(t: Timeline): seq<string> { SortByReady(t, Sorted(Nodes(t))) }

  /** A path in visiting order leads from one node to the other, through one at most. */
  predicate Connected(t: Timeline, order: seq<string>, i: nat, j: nat)
    requires i < j < |order|
  {
    || Precedes(t, order[i], order[j])
    || exists k :: i < k < j && Precedes(t, order[i], order[k]) && Precedes(t, order[k], order[j])
  }

  ghost predicate OnOnePath(t: Timeline, u: string, v: string) {
    exists c :: IsPath(t, c) && u in c && v in c
  }

  /** Any two nodes of one path, whichever comes first on it, are connected in visiting order. */
  ghost predicate InOrder(t: Timeline, order: seq<string>) {
    forall i, j :: 0 <= i < j < |order| && OnOnePath(t, order[i], order[j]) ==> Connected(t, order, i, j)
  }

  /** The work of those of `order` that are in `c`. */
  function Held(t: Timeline, order: seq<string>, c: seq<string>): nat {
    if order == [] then 0
    else
      var n := |order| - 1;
      Held(t, order[..n], c) + if order[n] in c then ContributionOf(t, order[n]) else 0
  }

  lemma {:induction false} HeldOneMore(t: Timeline, order: seq<string>, c: seq<string>, v: string)
    requires Distinct(order) && v !in c
    ensures Held(t, order, c + [v]) == Held(t, order, c) + if v in order then ContributionOf(t, v) else 0
  {
    hide ContributionOf, Distinct;
    if order != [] {
      InitDistinct(order);
      HeldOneMore(t, order[..|order| - 1], c, v);
    }
  }

  lemma {:induction false} NothingHeld(t: Timeline, order: seq<string>)
    ensures Held(t, order, []) == 0
  {
    if order != [] { NothingHeld(t, order[..|order| - 1]); }
  }

  lemma {:induction false} HeldIsWeight(t: Timeline, order: seq<string>, c: seq<string>)
    requires Distinct(order) && Distinct(c) && forall n <- c :: n in order
    ensures Held(t, order, c) == Weight(t, c)
  {
    hide ContributionOf, Distinct, Held;
    if c == [] {
      NothingHeld(t, order);
    } else {
      var n := |c| - 1;
      InitDistinct(c);
      HeldIsWeight(t, order, c[..n]);
      HeldOneMore(t, order, c[..n], c[n]);
      assert c == c[..n] + [c[n]];
    }
  }

  lemma HeldStep(t: Timeline, order: seq<string>, c: seq<string>, k: nat)
    requires k < |order|
    ensures Held(t, order[..k + 1], c) ==
            Held(t, order[..k], c) + if order[k] in c then ContributionOf(t, order[k]) else 0
  {
    hide ContributionOf;
    assert order[..k + 1][..k] == order[..k];
  }

  /** The last node of `c` among the first `k`, if there is one. */
  lemma {:induction false} LastHeld(t: Timeline, order: seq<string>, c: seq<string>, k: nat) returns (p: int)
    requires k <= |order|
    ensures -1 <= p < k && (p >= 0 ==> order[p] in c)
    ensures Held(t, order[..k], c) == if p < 0 then 0 else Held(t, order[..p + 1], c)
    decreases k
  {
    hide ContributionOf;
    if k == 0 { return -1; }
    HeldStep(t, order, c, k - 1);
    if order[k - 1] in c { return k - 1; }
    p := LastHeld(t, order, c, k - 1);
  }

  predicate AllConnected(t: Timeline, order: seq<string>, c: seq<string>) {
    forall i, j :: 0 <= i < j < |order| && order[i] in c && order[j] in c ==> Connected(t, order, i, j)
  }

  /** Where the nodes of `c` are connected in order, the pass counts them all. */
  lemma {:induction false} ConnectedAreCounted(t: Timeline, order: seq<string>, c: seq<string>, k: nat)
    requires Distinct(order) && AllConnected(t, order, c) && k < |order| && order[k] in c
    ensures order[k] in Forward(t, order).cp
    ensures Held(t, order[..k + 1], c) <= Forward(t, order).cp[order[k]]
    decreases k
  {
    hide Distinct, Forward, Precedes, ContributionOf, Held;
    ForwardCovers(t, order, k);
    HeldStep(t, order, c, k);
    var p := LastHeld(t, order, c, k);
    if p >= 0 {
      ConnectedAreCounted(t, order, c, p);
      assert Connected(t, order, p, k);
      if !Precedes(t, order[p], order[k]) {
        var m :| p < m < k && Precedes(t, order[p], order[m]) && Precedes(t, order[m], order[k]);
        ForwardCovers(t, order, m);
      }
    }
  }

  lemma OrderedIsLongest(t: Timeline, order: seq<string>)
    requires VisitOrder(t, order) && InOrder(t, order)
    ensures IsLongest(t, Forward(t, order).best)
  {
    hide Distinct, Ascending, Forward, Connected, Weight, Held, IsChain, Nodes;
    ForwardBest(t, order);
    forall c | IsPath(t, c) ensures Weight(t, c) <= Forward(t, order).best {
      PathNodes(t, c);
      HeldIsWeight(t, order, c);
      assert order[..|order|] == order;
      var p := LastHeld(t, order, c, |order|);
      if p >= 0 {
        forall i, j | 0 <= i < j < |order| && order[i] in c && order[j] in c ensures Connected(t, order, i, j) {
          assert OnOnePath(t, order[i], order[j]);
        }
        ConnectedAreCounted(t, order, c, p);
        assert order[p] in order;
      }
    }
    BestIsAttained(t, order);
  }

  lemma PathNodes(t: Timeline, c: seq<string>)
    requires IsPath(t, c)
    ensures Distinct(c) && forall n <- c :: n in Nodes(t)
  {
    hide Nodes, Precedes;
  }

  /** The value recorded for a node is its own work, after that of one predecessor visited
      before it if there is any. */
  lemma {:induction false} ForwardExact(t: Timeline, order: seq<string>, k: nat)
    requires Distinct(order) && k < |order|
    ensures var cp := Forward(t, order).cp;
            && (forall n <- order :: n in cp)
            && (cp[order[k]] == ContributionOf(t, order[k]) ||
                exists m :: 0 <= m < k && Precedes(t, order[m], order[k])
                         && cp[order[k]] == cp[order[m]] + ContributionOf(t, order[k]))
  {
    hide Distinct, Visit, Precedes, ContributionOf;
    var before, v := order[..|order| - 1], order[|order| - 1];
    var p := Forward(t, before);
    InitDistinct(order);
    ForwardBest(t, before);
    VisitRecords(t, p, v);
    assert forall i :: 0 <= i < |before| ==> order[i] == before[i] && before[i] in before;
    if k < |before| {
      ForwardExact(t, before, k);
    } else if u :| u in p.cp && Precedes(t, u, v) && Visit(t, p, v).cp[v] == p.cp[u] + ContributionOf(t, v) {
      var m :| 0 <= m < |before| && before[m] == u;
      assert order[m] == u;
    }
  }

  /** The nodes at `i` and `j` are all that contributes, one each. */
  predicate OnlyPair(t: Timeline, order: seq<string>, i: nat, j: nat) {
    && i < j < |order|
    && forall k :: 0 <= k < |order| ==> ContributionOf(t, order[k]) == if k == i || k == j then 1 else 0
  }

  /** Where they are not connected, the pass never counts both; before `j` it counts the first
      only where a path leads from it. */
  lemma {:induction false} PairCountsOnce(t: Timeline, order: seq<string>, i: nat, j: nat, k: nat)
    requires Distinct(order) && Ascending(t, order) && OnlyPair(t, order, i, j) && !Connected(t, order, i, j)
    requires k < |order|
    ensures order[k] in Forward(t, order).cp && Forward(t, order).cp[order[k]] <= 1
    ensures k < j && Forward(t, order).cp[order[k]] == 1 ==> k == i || (i < k && Precedes(t, order[i], order[k]))
    decreases k
  {
    hide Distinct, Forward, ContributionOf, ReadyOf;
    ForwardExact(t, order, k);
    var cp := Forward(t, order).cp;
    if cp[order[k]] != ContributionOf(t, order[k]) {
      var m :| 0 <= m < k && Precedes(t, order[m], order[k])
               && cp[order[k]] == cp[order[m]] + ContributionOf(t, order[k]);
      PairCountsOnce(t, order, i, j, m);
      assert ReadyOf(t, order[m]) <= ReadyOf(t, order[k]);
    }
  }

  lemma {:induction false} HeldGrows(t: Timeline, order: seq<string>, c: seq<string>, a: nat, b: nat)
    requires a <= b <= |order|
    ensures Held(t, order[..a], c) <= Held(t, order[..b], c)
    decreases b
  {
    hide Held, ContributionOf;
    if a < b {
      HeldGrows(t, order, c, a, b - 1);
      HeldStep(t, order, c, b - 1);
    }
  }

  lemma UnconnectedPairUndercounts(t: Timeline, order: seq<string>, i: nat, j: nat)
    requires VisitOrder(t, order) && OnlyPair(t, order, i, j)
    requires OnOnePath(t, order[i], order[j]) && !Connected(t, order, i, j)
    ensures !IsLongest(t, Forward(t, order).best)
  {
    hide Distinct, Ascending, Forward, Connected, Weight, Held, IsChain, Nodes, ContributionOf;
    ForwardBest(t, order);
    forall n | n in order ensures Forward(t, order).cp[n] <= 1 {
      var k :| 0 <= k < |order| && order[k] == n;
      PairCountsOnce(t, order, i, j, k);
    }
    var c :| IsPath(t, c) && order[i] in c && order[j] in c;
    PathNodes(t, c);
    HeldIsWeight(t, order, c);
    HeldStep(t, order, c, i);
    HeldGrows(t, order, c, i + 1, j);
    HeldStep(t, order, c, j);
    HeldGrows(t, order, c, j + 1, |order|);
    assert order[..|order|] == order;
  }

  lemma {:induction false} SameReadinessSameOrder(t: Timeline, s: Timeline, ns: seq<string>)
    requires t.readyAt == s.readyAt && t.terminalAt == s.terminalAt
    ensures SortByReady(t, ns) == SortByReady(s, ns)
  {
    if ns != [] {
      SameReadinessSameOrder(t, s, ns[..|ns| - 1]);
      SameInsertion(t, s, ns[|ns| - 1], SortByReady(t, ns[..|ns| - 1]));
    }
  }

  lemma {:induction false} SameInsertion(t: Timeline, s: Timeline, n: string, ns: seq<string>)
    requires t.readyAt == s.readyAt && t.terminalAt == s.terminalAt
    ensures InsertByReady(t, n, ns) == InsertByReady(s, n, ns)
  {
    if ns != [] { SameInsertion(t, s, n, ns[1..]); }
  }

  /** The same readiness and terminal offsets with other work. */
  function Working(t: Timeline, work: map<string, nat>): Timeline { t.(contribution := work) }

  ghost predicate OptimalForAllWork(t: Timeline) {
    forall work: map<string, nat> :: Nodes(Working(t, work)) == Nodes(t) ==>
      IsLongest(Working(t, work), CriticalPathOf(Working(t, work)))
  }

  lemma WorkKeepsOrder(t: Timeline, work: map<string, nat>)
    requires Nodes(Working(t, work)) == Nodes(t)
    ensures OrderOf(Working(t, work)) == OrderOf(t) && VisitOrder(Working(t, work), OrderOf(t))
    ensures forall u, v :: Precedes(Working(t, work), u, v) <==> Precedes(t, u, v)
  {
    hide Nodes, SortByReady, Sorted;
    SameReadinessSameOrder(t, Working(t, work), Sorted(Nodes(t)));
    SortIsVisitOrder(Working(t, work));
  }

  lemma WorkKeepsPaths(t: Timeline, work: map<string, nat>)
    requires Nodes(Working(t, work)) == Nodes(t)
    ensures forall u, v :: OnOnePath(Working(t, work), u, v) <==> OnOnePath(t, u, v)
    ensures InOrder(Working(t, work), OrderOf(t)) <==> InOrder(t, OrderOf(t))
  {
    hide OrderOf, Precedes, Nodes, Working, Distinct;
    WorkKeepsOrder(t, work);
    var s := Working(t, work);
    forall c ensures IsPath(s, c) <==> IsPath(t, c) {}
    forall u, v ensures OnOnePath(s, u, v) <==> OnOnePath(t, u, v) {}
    forall i: nat, j: nat | i < j < |OrderOf(t)|
      ensures Connected(s, OrderOf(t), i, j) <==> Connected(t, OrderOf(t), i, j)
    {}
  }

  /** **The pass is optimal for all work exactly when its order is safe**: whatever the nodes'
      executing times, its result is the weight of the heaviest path, if and only if any two
      nodes of one path are connected in the order the pass visits them. */
  lemma OptimalExactlyWhenInOrder(t: Timeline)
    ensures OptimalForAllWork(t) <==> InOrder(t, OrderOf(t))
  {
    hide OrderOf, InOrder, Nodes, Precedes, IsLongest, CriticalPathOf, VisitOrder, Working, OnOnePath, Connected;
    if InOrder(t, OrderOf(t)) {
      forall work: map<string, nat> | Nodes(Working(t, work)) == Nodes(t)
        ensures IsLongest(Working(t, work), CriticalPathOf(Working(t, work)))
      {
        WorkKeepsOrder(t, work);
        WorkKeepsPaths(t, work);
        OrderedIsLongest(Working(t, work), OrderOf(t));
        PassValue(Working(t, work));
      }
    } else {
      var i, j := UnconnectedPair(t, OrderOf(t));
      var work := PairWork(t, OrderOf(t), i, j);
      WorkKeepsOrder(t, work);
      WorkKeepsPaths(t, work);
      StillUnconnected(t, work, i, j);
      UnconnectedPairUndercounts(Working(t, work), OrderOf(t), i, j);
      PassValue(Working(t, work));
    }
  }

  lemma StillUnconnected(t: Timeline, work: map<string, nat>, i: nat, j: nat)
    requires Nodes(Working(t, work)) == Nodes(t) && i < j < |OrderOf(t)| && !Connected(t, OrderOf(t), i, j)
    ensures !Connected(Working(t, work), OrderOf(t), i, j)
  {
    hide OrderOf, Precedes, Nodes, Working;
    WorkKeepsOrder(t, work);
  }

  lemma PassValue(t: Timeline)
    ensures CriticalPathOf(t) == Forward(t, OrderOf(t)).best
  {}

  lemma UnconnectedPair(t: Timeline, order: seq<string>) returns (i: nat, j: nat)
    requires !InOrder(t, order)
    ensures i < j < |order| && OnOnePath(t, order[i], order[j]) && !Connected(t, order, i, j)
  {
    hide OnOnePath, Connected;
    i, j :| 0 <= i < j < |order| && OnOnePath(t, order[i], order[j]) && !Connected(t, order, i, j);
  }

  lemma PairWork(t: Timeline, order: seq<string>, i: nat, j: nat) returns (work: map<string, nat>)
    requires order == OrderOf(t) && i < j < |order|
    ensures Nodes(Working(t, work)) == Nodes(t) && OnlyPair(Working(t, work), order, i, j)
  {
    hide SortByReady, Sorted, Nodes;
    SortIsVisitOrder(t);
    work := map n | n in order :: if n == order[i] || n == order[j] then 1 else 0;
    assert work.Keys == Nodes(t);
    WorkOnNodes(t, work);
    forall k | 0 <= k < |order|
      ensures ContributionOf(Working(t, work), order[k]) == if k == i || k == j then 1 else 0
    {
      assert order[k] in order && work[order[k]] == if order[k] == order[i] || order[k] == order[j] then 1 else 0;
    }
  }

  lemma WorkOnNodes(t: Timeline, work: map<string, nat>)
    requires work.Keys == Nodes(t)
    ensures Nodes(Working(t, work)) == Nodes(t)
  {}

  // ---- Where no node ends before it is ready -------------------------------

  predicate EndsOnceReady(t: Timeline) {
    forall n <- t.terminalAt.Keys :: ReadyOf(t, n) <= t.terminalAt[n]
  }

  /** Two nodes visited against their precedence end and become ready at one instant. */
  predicate LatePairsAreMutual(t: Timeline, order: seq<string>) {
    forall i, j :: 0 <= j < i < |order| && Precedes(t, order[i], order[j]) ==> Precedes(t, order[j], order[i])
  }

  lemma {:induction false} PathPrecedes(t: Timeline, c: seq<string>, a: nat, b: nat)
    requires EndsOnceReady(t) && IsChain(t, c) && a < b < |c|
    ensures Precedes(t, c[a], c[b])
    decreases b
  {
    hide ReadyOf, Nodes;
    if a < b - 1 {
      PathPrecedes(t, c, a, b - 1);
      assert Precedes(t, c[b - 1], c[b]);
    }
  }

  lemma TwoMakeAPath(t: Timeline, u: string, v: string)
    requires u in Nodes(t) && v in Nodes(t) && u != v && Precedes(t, u, v)
    ensures OnOnePath(t, u, v) && OnOnePath(t, v, u)
  {
    hide Nodes, Precedes;
    var c := [u, v];
    assert c[0] == u && c[1] == v && IsPath(t, c);
  }

  lemma ConnectedPrecedes(t: Timeline, order: seq<string>, i: nat, j: nat)
    requires EndsOnceReady(t) && i < j < |order| && Connected(t, order, i, j)
    ensures Precedes(t, order[i], order[j])
  {}

  lemma InOrderWhenMutual(t: Timeline, order: seq<string>)
    requires EndsOnceReady(t) && VisitOrder(t, order)
    ensures InOrder(t, order) <==> LatePairsAreMutual(t, order)
  {
    hide Nodes, Precedes, ReadyOf, EndsOnceReady, Connected, Ascending, OnOnePath;
    if InOrder(t, order) {
      forall i, j | 0 <= j < i < |order| && Precedes(t, order[i], order[j]) ensures Precedes(t, order[j], order[i]) {
        assert order[i] in order && order[j] in order && order[j] != order[i];
        TwoMakeAPath(t, order[i], order[j]);
        assert Connected(t, order, j, i);
        ConnectedPrecedes(t, order, j, i);
      }
    }
    if LatePairsAreMutual(t, order) {
      forall i, j | 0 <= i < j < |order| && OnOnePath(t, order[i], order[j]) ensures Connected(t, order, i, j) {
        MutualConnects(t, order, i, j);
      }
    }
  }

  lemma MutualConnects(t: Timeline, order: seq<string>, i: nat, j: nat)
    requires EndsOnceReady(t) && VisitOrder(t, order) && LatePairsAreMutual(t, order)
    requires i < j < |order| && OnOnePath(t, order[i], order[j])
    ensures Connected(t, order, i, j)
  {
    hide Nodes, Precedes, EndsOnceReady, Ascending, IsChain;
    var c :| IsPath(t, c) && order[i] in c && order[j] in c;
    var a :| 0 <= a < |c| && c[a] == order[i];
    var b :| 0 <= b < |c| && c[b] == order[j];
    assert order[i] != order[j];
    if a < b { PathPrecedes(t, c, a, b); } else { PathPrecedes(t, c, b, a); }
  }

  /** Where no node ends before it is ready, that is so exactly when two nodes the pass visits
      against their precedence precede each other: both last no time, at one instant. */
  lemma OptimalExactlyWhenMutual(t: Timeline)
    requires EndsOnceReady(t)
    ensures OptimalForAllWork(t) <==> LatePairsAreMutual(t, OrderOf(t))
  {
    hide OptimalForAllWork, InOrder, LatePairsAreMutual, VisitOrder, EndsOnceReady, SortByReady, Sorted, Nodes;
    SortIsVisitOrder(t);
    OptimalExactlyWhenInOrder(t);
    InOrderWhenMutual(t, OrderOf(t));
  }

  // ---- A timeline that is not safe -----------------------------------------

  /** Two nodes ready together, the later-named terminal at that instant. */
  const TIED := Timeline(map["a" := 1, "b" := 1], map["a" := 1, "b" := 1], map["a" := 2, "b" := 1])

  lemma TiedOrder()
    ensures Nodes(TIED) == {"a", "b"} && OrderOf(TIED) == ["a", "b"]
  {
    assert Nodes(TIED) == {"a", "b"} && ReadyOf(TIED, "a") == ReadyOf(TIED, "b");
    hide TIED, Sorted, ReadyOf, Nodes;
    SortedIs({"a", "b"}, ["a", "b"]);
    TwoStay(TIED, "a", "b");
  }

  lemma TwoStay(t: Timeline, u: string, v: string)
    requires ReadyOf(t, u) <= ReadyOf(t, v)
    ensures SortByReady(t, [u, v]) == [u, v]
  {
    hide ReadyOf;
    assert [u, v][..1] == [u] && [u][..0] == [] && [u][1..] == [];
    assert SortByReady(t, [u]) == [u];
    assert InsertByReady(t, v, []) == [v];
    assert InsertByReady(t, v, [u]) == [u, v];
  }

  lemma TiedFacts()
    ensures ContributionOf(TIED, "a") == 1 && ContributionOf(TIED, "b") == 1
    ensures Precedes(TIED, "b", "a") && !Precedes(TIED, "a", "b") && !Precedes(TIED, "a", "a")
    ensures "a" in Nodes(TIED) && "b" in Nodes(TIED)
  {}

  /** The path of both weighs two. */
  lemma TiedPath()
    ensures IsPath(TIED, ["b", "a"]) && Weight(TIED, ["b", "a"]) == 2
  {
    hide TIED, ContributionOf, Precedes, Nodes;
    TiedFacts();
    var c := ["b", "a"];
    assert c[..1] == ["b"] && ["b"][..0] == [];
    assert Weight(TIED, ["b"]) == 1;
  }

  /** The pass visits `a` before the node that precedes it, and counts one of the path's two. */
  lemma TiedIsUndercounted()
    ensures CriticalPathOf(TIED) == 1 && IsPath(TIED, ["b", "a"]) && Weight(TIED, ["b", "a"]) == 2
    ensures EndsOnceReady(TIED) && !LatePairsAreMutual(TIED, OrderOf(TIED))
  {
    assert EndsOnceReady(TIED);
    hide TIED, Precedes, OrderOf, IsPath, EndsOnceReady, Weight, CriticalPathOf;
    TiedFacts();
    TiedOrder();
    TiedPath();
    TiedValue();
    assert OrderOf(TIED)[0] == "a" && OrderOf(TIED)[1] == "b";
  }

  lemma TiedValue()
    ensures CriticalPathOf(TIED) == 1
  {
    hide TIED, ContributionOf, Precedes, Nodes, OrderOf, Sorted, ReadyOf, CriticalPathOf;
    TiedFacts();
    TiedOrder();
    PassValue(TIED);
    SortedIs({}, []);
    SortedIs({"a"}, ["a"]);
    var none: map<string, nat> := map[];
    var one, two := ["a"], ["a", "b"];
    assert one[..|one| - 1] == [] && two[..|two| - 1] == one && none.Keys == {};
    assert Forward(TIED, []) == Pass(none, 0) && BaseOver(TIED, none, "a", []) == 0;
    assert Forward(TIED, one) == Pass(map["a" := 1], 1);
    assert Forward(TIED, one).cp.Keys == {"a"} && one[..0] == [];
    assert BaseOver(TIED, Forward(TIED, one).cp, "b", []) == 0;
    assert BaseOver(TIED, Forward(TIED, one).cp, "b", one) == 0;
  }
}
