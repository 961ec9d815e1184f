/** How many rounds a node waits before it must run again, read off the graph, and so exactly
    when a rehydrated node is among those that must. */
module ResumeTrails {
  import opened Text
  import opened TerminalStates
  import opened ResumePlan

  /** Why a node must run again: it is in the seed, an upstream of it must, or a consumer of it
      must and its value cannot be rehydrated. */
  datatype Trail = Start(node: string) | Below(before: Trail, node: string) | Demanded(before: Trail, node: string)

  predicate IsTrail(g: Graph, prior: PriorRun, t: Trail)
    requires WellFormed(g)
  {
    match t
    case Start(n) => n in SeedOf(g, prior)
    case Below(b, n) => IsTrail(g, prior, b) && n in g.inputs && b.node in Upstreams(g, n)
    case Demanded(b, n) =>
      && IsTrail(g, prior, b) && b.node in g.inputs && n in g.inputs[b.node]
      && ReferenceOf(g, prior, n).None?
  }

  /** The sweep visits `a` before `b`. */
  predicate Before(a: string, b: string) { a != b && LexLe(a, b) }

  /** How many sweeps end before the one that reaches the trail's end: a demand waits for the
      next, and so does a step against the order of names, unless its source was known before
      its own sweep began. */
  function Waits(t: Trail): nat {
    match t
    case Start(_) => 0
    case Below(b, n) => if !b.Below? || Before(b.node, n) then Waits(b) else Waits(b) + 1
    case Demanded(b, _) => Waits(b) + 1
  }

  // ---- One sweep -----------------------------------------------------------

  lemma {:induction false} SweepExtends(g: Graph, names: seq<string>, m: set<string>, i: nat, j: nat)
    requires WellFormed(g) && (forall n <- names :: n in g.inputs) && i <= j <= |names|
    ensures m <= Sweep(g, names[..i], m) <= Sweep(g, names[..j], m)
    decreases j
  {
    hide JoinsNow, WellFormed, Sweep;
    if i < j {
      SweepExtends(g, names, m, i, j - 1);
      SweepStep(g, names, j - 1, m);
    } else if i > 0 {
      SweepExtends(g, names, m, i - 1, i - 1);
      SweepStep(g, names, i - 1, m);
    } else {
      SweepStarts(g, names, m);
    }
  }

  /** What a sweep adds it adds at the node's own turn, because of an upstream. */
  lemma {:induction false} JoinsAtItsTurn(g: Graph, names: seq<string>, m: set<string>, k: nat, u: string)
    returns (x: nat, w: string)
    requires WellFormed(g) && (forall n <- names :: n in g.inputs) && k <= |names|
    requires u in Sweep(g, names[..k], m) && u !in m
    ensures x < k && names[x] == u && u in g.inputs && w in Upstreams(g, u) && w in Sweep(g, names[..x], m)
    decreases k
  {
    hide WellFormed, Sweep;
    SweepStarts(g, names, m);
    SweepStep(g, names, k - 1, m);
    if u in Sweep(g, names[..k - 1], m) {
      x, w := JoinsAtItsTurn(g, names, m, k - 1, u);
    } else {
      x := k - 1;
      w :| w in Upstreams(g, u) && w in Sweep(g, names[..x], m);
    }
  }

  /** A node joins the sweep when an upstream was known before it or comes earlier in it. */
  lemma TurnComes(g: Graph, m: set<string>, u: string, n: string)
    requires WellFormed(g) && n in g.inputs && u in Upstreams(g, n)
    requires u in m || (Before(u, n) && u in Swept(g, m))
    ensures n in Swept(g, m)
  {
    hide WellFormed, Sweep, LexLe, Sorted;
    var names := Sorted(g.inputs.Keys);
    assert names[..|names|] == names;
    var i :| 0 <= i < |names| && names[i] == n;
    SweepExtends(g, names, m, i, i);
    if u !in m { InBeforeTurn(g, names, m, u, i); }
    SweepStep(g, names, i, m);
    SweepExtends(g, names, m, i + 1, |names|);
  }

  lemma InBeforeTurn(g: Graph, names: seq<string>, m: set<string>, u: string, i: nat)
    requires WellFormed(g) && (forall n <- names :: n in g.inputs) && i < |names|
    requires forall a, b :: 0 <= a < b < |names| ==> names[a] != names[b] && LexLe(names[a], names[b])
    requires Before(u, names[i]) && u !in m && u in Sweep(g, names[..|names|], m)
    ensures u in Sweep(g, names[..i], m)
  {
    hide WellFormed, Sweep, LexLe, Before;
    var x, _ := JoinsAtItsTurn(g, names, m, |names|, u);
    if i <= x { NotBefore(names, i, x); }
    JoinedBy(g, names, m, x);
    SweepExtends(g, names, m, x + 1, i);
  }

  lemma NotBefore(names: seq<string>, i: nat, x: nat)
    requires (forall a, b :: 0 <= a < b < |names| ==> names[a] != names[b] && LexLe(names[a], names[b]))
    requires i <= x < |names|
    ensures !Before(names[x], names[i])
  {
    if i < x && LexLe(names[x], names[i]) { LexAntisymmetric(names[i], names[x]); }
  }

  /** A node whose turn has come and that has an upstream in the sweep is in it. */
  lemma JoinedBy(g: Graph, names: seq<string>, m: set<string>, x: nat)
    requires WellFormed(g) && (forall n <- names :: n in g.inputs) && x < |names|
    requires names[x] in g.inputs && exists w <- Upstreams(g, names[x]) :: w in Sweep(g, names[..x], m)
    ensures names[x] in Sweep(g, names[..x + 1], m)
  {
    hide WellFormed, Sweep;
    SweepStep(g, names, x, m);
  }

  // ---- Rounds and trails ---------------------------------------------------

  lemma SweptBy(g: Graph, prior: PriorRun, k: nat, j: nat)
    requires WellFormed(g) && k <= j
    ensures Swept(g, After(g, prior, k)) <= Swept(g, After(g, prior, j))
  {
    hide WellFormed, Swept, Round, After;
    if k < j {
      SweptIsBelow(g, prior, k);
      AfterGrows(g, prior, k + 1, j);
      InSwept(g, prior, j);
    }
  }

  /** A trail's end is reached once it has waited, before that sweep unless it ends downstream. */
  lemma {:induction false} TrailReaches(g: Graph, prior: PriorRun, t: Trail)
    requires WellFormed(g) && IsTrail(g, prior, t)
    ensures !t.Below? ==> t.node in After(g, prior, Waits(t))
    ensures t.node in Swept(g, After(g, prior, Waits(t)))
    decreases t
  {
    hide WellFormed, Swept, ReferenceOf, LexLe;
    var k := Waits(t);
    match t
    case Start(n) =>
      InSwept(g, prior, 0);
    case Below(b, n) =>
      TrailReaches(g, prior, b);
      if Waits(b) < k {
        SweptIsBelow(g, prior, Waits(b));
      }
      TurnComes(g, After(g, prior, k), b.node, n);
    case Demanded(b, n) =>
      TrailReaches(g, prior, b);
      InSwept(g, prior, k);
  }

  lemma {:induction false} KnownByTrail(g: Graph, prior: PriorRun, k: nat, n: string) returns (t: Trail)
    requires WellFormed(g) && n in After(g, prior, k)
    ensures IsTrail(g, prior, t) && t.node == n
    ensures Waits(t) < k || (Waits(t) == k && !t.Below?)
    decreases k, 0, 0
  {
    hide WellFormed, Sweep, ReferenceOf, SeedOf, Sorted;
    if k == 0 {
      t := Start(n);
    } else {
      var names := Sorted(g.inputs.Keys);
      var swept := Swept(g, After(g, prior, k - 1));
      assert names[..|names|] == names;
      if n in swept {
        t := SweptByTrail(g, prior, k - 1, |names|, n);
      } else {
        var c :| c in swept && c in g.inputs && n in g.inputs[c];
        var b := SweptByTrail(g, prior, k - 1, |names|, c);
        t := Demanded(b, n);
      }
    }
  }

  lemma {:induction false} SweptByTrail(g: Graph, prior: PriorRun, k: nat, i: nat, n: string) returns (t: Trail)
    requires WellFormed(g) && i <= |Sorted(g.inputs.Keys)|
    requires n in Sweep(g, Sorted(g.inputs.Keys)[..i], After(g, prior, k))
    ensures IsTrail(g, prior, t) && t.node == n && Waits(t) <= k
    decreases k, 1, i
  {
    hide WellFormed, Sweep, ReferenceOf, SeedOf, Sorted, After, LexLe;
    var names, m := Sorted(g.inputs.Keys), After(g, prior, k);
    if n in m {
      t := KnownByTrail(g, prior, k, n);
    } else {
      var x, w := JoinsAtItsTurn(g, names, m, i, n);
      if w in m {
        var b := KnownByTrail(g, prior, k, w);
        t := Below(b, n);
      } else {
        var y, _ := JoinsAtItsTurn(g, names, m, x, w);
        var b := SweptByTrail(g, prior, k, x, w);
        assert Before(names[y], names[x]);
        t := Below(b, n);
      }
    }
  }

  lemma ReachedByTrail(g: Graph, prior: PriorRun, k: nat, n: string) returns (t: Trail)
    requires WellFormed(g) && n in Swept(g, After(g, prior, k))
    ensures IsTrail(g, prior, t) && t.node == n && Waits(t) <= k
  {
    hide WellFormed, Sweep, After, Sorted, IsTrail;
    var names := Sorted(g.inputs.Keys);
    assert names[..|names|] == names;
    t := SweptByTrail(g, prior, k, |names|, n);
  }

  // ---- When a rehydrated node runs again -----------------------------------

  /** A trail leads to a consumer of `p`, and every trail to `p`, of which there is one, waits
      longer. */
  ghost predicate ReachedLater(g: Graph, prior: PriorRun, p: string)
    requires WellFormed(g)
  {
    && ReferenceOf(g, prior, p).Some?
    && (exists w :: IsTrail(g, prior, w) && w.node == p)
    && (exists t :: Outruns(g, prior, t, p))
  }

  ghost predicate Outruns(g: Graph, prior: PriorRun, t: Trail, p: string)
    requires WellFormed(g)
  {
    && IsTrail(g, prior, t) && t.node in g.inputs && p in g.inputs[t.node]
    && forall w :: IsTrail(g, prior, w) && w.node == p ==> Waits(t) < Waits(w)
  }

  lemma OvertakenIsReachedLater(g: Graph, prior: PriorRun, p: string)
    requires WellFormed(g) && Overtaken(g, prior, p)
    ensures ReachedLater(g, prior, p)
  {
    hide WellFormed, Swept, After, IsTrail, ReferenceOf;
    var k: nat, j: nat :| k < j && RehydratedIn(g, prior, k, p) && p in Swept(g, After(g, prior, j));
    var swept := Swept(g, After(g, prior, k));
    var c :| c in swept && c in g.inputs && p in g.inputs[c] && p !in swept;
    var t := ReachedByTrail(g, prior, k, c);
    var last := ReachedByTrail(g, prior, j, p);
    forall w | IsTrail(g, prior, w) && w.node == p ensures Waits(t) < Waits(w) {
      TrailReaches(g, prior, w);
      if Waits(w) <= k { SweptBy(g, prior, Waits(w), k); }
    }
    assert Outruns(g, prior, t, p);
  }

  lemma ReachedLaterIsOvertaken(g: Graph, prior: PriorRun, p: string)
    requires WellFormed(g) && ReachedLater(g, prior, p)
    ensures Overtaken(g, prior, p)
  {
    hide WellFormed, Swept, After, IsTrail, ReferenceOf;
    var w :| IsTrail(g, prior, w) && w.node == p;
    var t :| Outruns(g, prior, t, p);
    var k, j := Waits(t), Waits(w);
    TrailReaches(g, prior, t);
    TrailReaches(g, prior, w);
    if p in Swept(g, After(g, prior, k)) {
      var early := ReachedByTrail(g, prior, k, p);
      assert false;
    }
    assert RehydratedIn(g, prior, k, p);
  }

  /** **When the code's own claim holds, exactly**: nothing rehydrated runs again if and only if
      no producer whose value can be rehydrated is reached later than one of its consumers, as
      trails through the graph count it. */
  lemma DisjointExactlyWhenNoneReachedLater(g: Graph, prior: PriorRun, m: set<string>, rehydrate: map<string, string>)
    requires WellFormed(g) && IsMustRun(g, prior, m)
    requires forall p :: p in rehydrate <==> exists k: nat :: RehydratedIn(g, prior, k, p)
    ensures rehydrate.Keys !! m <==> forall p :: !ReachedLater(g, prior, p)
  {
    hide WellFormed, IsMustRun, RehydratedIn, Overtaken, ReachedLater;
    DisjointExactlyWhenNoneOvertaken(g, prior, m, rehydrate);
    forall p ensures Overtaken(g, prior, p) <==> ReachedLater(g, prior, p) {
      if Overtaken(g, prior, p) { OvertakenIsReachedLater(g, prior, p); }
      if ReachedLater(g, prior, p) { ReachedLaterIsOvertaken(g, prior, p); }
    }
  }

  /** A node must run again exactly when some trail leads to it. */
  lemma MustRunIsTheTrails(g: Graph, prior: PriorRun, m: set<string>, n: string)
    requires WellFormed(g) && IsMustRun(g, prior, m)
    ensures n in m <==> exists t :: IsTrail(g, prior, t) && t.node == n
  {
    hide WellFormed, Swept, After, IsTrail, Closed;
    var end := MustRunIsReached(g, prior, m);
    if n in m { var t := ReachedByTrail(g, prior, end, n); }
    if t :| IsTrail(g, prior, t) && t.node == n {
      TrailReaches(g, prior, t);
      SweptIsBelow(g, prior, Waits(t));
      InLeast(g, prior, m, Waits(t) + 1);
    }
  }
}
