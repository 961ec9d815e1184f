/** The demand-driven resume plan: what must run again, what is carried forward, and which
    durable values are rehydrated. */
module ResumePlan {
  import opened Text
  import opened TerminalStates

  datatype PriorNode = PriorNode(terminal: TerminalState, reference: Option<string>, hash: Option<string>,
                                 origin: string)

  datatype PriorRun = PriorRun(structural: nat, policy: nat, algorithm: nat, tool: string, nodes: map<string,
          PriorNode>)

  datatype Existence = Present | Absent | Changed(actual: string) | CannotDetermine

  /** The existence probe, given a node, its reference and its recorded hash. */
  type Probe = (string, string, Option<string>) -> Existence

  /** Each node's data inputs and ordering upstreams, the durable nodes, and the nodes some
      teardown covers. */
  datatype Graph = Graph(inputs: map<string, seq<string>>, ordering: map<string, seq<string>>,
                         durable: set<string>, covered: set<string>)

  predicate WellFormed(g: Graph) {
    && g.ordering.Keys == g.inputs.Keys
    && (forall n <- g.inputs.Keys :: forall p <- g.inputs[n] :: p in g.inputs)
    && (forall n <- g.inputs.Keys :: forall p <- g.ordering[n] :: p in g.inputs)
  }

  function Upstreams(g: Graph, n: string): seq<string>
    requires WellFormed(g) && n in g.inputs
  {
    g.inputs[n] + g.ordering[n]
  }

  // ---- What a plan should be -----------------------------------------------

  predicate DidSucceed(prior: PriorRun, n: string) { n in prior.nodes && prior.nodes[n].terminal == Succeeded }

  function SeedOf(g: Graph, prior: PriorRun): set<string> {
    set n | n in g.inputs && (!DidSucceed(prior, n) || n in g.covered)
  }

  /** The reference a producer's value can be rehydrated from. */
  function ReferenceOf(g: Graph, prior: PriorRun, p: string): Option<string> {
    if DidSucceed(prior, p) && p in g.durable then prior.nodes[p].reference else None
  }

  function HashOf(g: Graph, prior: PriorRun, p: string): Option<string> {
    if DidSucceed(prior, p) && p in g.durable then prior.nodes[p].hash else None
  }

  /** Holds the seed, everything downstream of a member, and every input a member needs that
      cannot be rehydrated. */
  ghost predicate Closed(g: Graph, prior: PriorRun, s: set<string>)
    requires WellFormed(g)
  {
    && SeedOf(g, prior) <= s
    && (forall n, u :: n in g.inputs && u in Upstreams(g, n) && u in s ==> n in s)
    && (forall c, p :: c in s && c in g.inputs && p in g.inputs[c] && ReferenceOf(g, prior, p).None? ==> p in s)
  }

  /** The least closed set. */
  ghost predicate IsMustRun(g: Graph, prior: PriorRun, m: set<string>)
    requires WellFormed(g)
  {
    m <= g.inputs.Keys && Closed(g, prior, m) && forall s :: Closed(g, prior, s) ==> m <= s
  }

  lemma MustRunIsUnique(g: Graph, prior: PriorRun, m: set<string>, w: set<string>)
    requires WellFormed(g) && IsMustRun(g, prior, m) && IsMustRun(g, prior, w)
    ensures m == w
  {
    hide Closed;
  }

  /** The producers a member demands that are not members. */
  function Wanted(g: Graph, m: set<string>): set<string> {
    set c, p | c in m && c in g.inputs && p in g.inputs[c] && p !in m :: p
  }

  datatype Refusal =
    | AlgorithmMismatch | ToolMismatch | StructuralMismatch
    | Dangling(node: string, reference: string)
    | Mutated(node: string, reference: string, expected: string, actual: string)

  /** What probing a demanded producer refuses the plan with, if anything. */
  function Trouble(g: Graph, prior: PriorRun, probe: Probe, p: string): Option<Refusal> {
    match ReferenceOf(g, prior, p)
    case None => None
    case Some(reference) =>
      match probe(p, reference, HashOf(g, prior, p))
      case Absent => Some(Dangling(p, reference))
      case Changed(actual) =>
        Some(Mutated(p, reference, match HashOf(g, prior, p) case Some(h) => h case None => "", actual))
      case _ => None
  }

  /** A value can be rehydrated exactly from the reference a durable node recorded when it
      succeeded. */
  lemma ReferenceMeans(g: Graph, prior: PriorRun, p: string, reference: string)
    ensures ReferenceOf(g, prior, p) == Some(reference) <==>
            p in g.durable && p in prior.nodes && prior.nodes[p].terminal == Succeeded
            && prior.nodes[p].reference == Some(reference)
  {}

  /** Probing refuses exactly when the value is gone, or its contents are no longer those whose
      hash was recorded; a probe that cannot tell refuses nothing. */
  lemma TroubleMeans(g: Graph, prior: PriorRun, probe: Probe, p: string, reference: string, r: Refusal)
    requires ReferenceOf(g, prior, p) == Some(reference)
    ensures Trouble(g, prior, probe, p) == Some(r) <==>
            var hash := prior.nodes[p].hash;
            match probe(p, reference, hash)
            case Absent => r == Dangling(p, reference)
            case Changed(actual) => r == Mutated(p, reference, if hash.Some? then hash.value else "", actual)
            case Present => false
            case CannotDetermine => false
  {}

  lemma UpstreamMeans(g: Graph, n: string, u: string)
    requires WellFormed(g) && n in g.inputs
    ensures u in Upstreams(g, n) <==> u in g.inputs[n] || u in g.ordering[n]
  {}

  // ---- One round -----------------------------------------------------------

  predicate JoinsNow(g: Graph, n: string, m: set<string>)
    requires WellFormed(g) && n in g.inputs
  {
    n !in m && exists u <- Upstreams(g, n) :: u in m
  }

  /** One downward sweep in name order. It is no closure: a node whose upstream comes later in
      the order waits for the next round. */
  function Sweep(g: Graph, names: seq<string>, m: set<string>): set<string>
    requires WellFormed(g) && forall n <- names :: n in g.inputs
  {
    if names == [] then m
    else
      var n := names[|names| - 1];
      assert n in names;
      var before := Sweep(g, names[..|names| - 1], m);
      if JoinsNow(g, n, before) then before + {n} else before
  }

  function Swept(g: Graph, m: set<string>): set<string>
    requires WellFormed(g)
  {
    Sweep(g, Sorted(g.inputs.Keys), m)
  }

  function InMemory(g: Graph, prior: PriorRun, ps: set<string>): set<string> {
    set p | p in ps && ReferenceOf(g, prior, p).None?
  }

  function Round(g: Graph, prior: PriorRun, m: set<string>): set<string>
    requires WellFormed(g)
  {
    Swept(g, m) + InMemory(g, prior, Wanted(g, Swept(g, m)))
  }

  /** The must-run set after `k` rounds. */
  function After(g: Graph, prior: PriorRun, k: nat): set<string>
    requires WellFormed(g)
  {
    if k == 0 then SeedOf(g, prior) else Round(g, prior, After(g, prior, k - 1))
  }

  /** Round `k` probes and rehydrates the producer. */
  predicate RehydratedIn(g: Graph, prior: PriorRun, k: nat, p: string)
    requires WellFormed(g)
  {
    p in Wanted(g, Swept(g, After(g, prior, k))) && ReferenceOf(g, prior, p).Some?
  }

  lemma {:induction false} SweepGrows(g: Graph, prior: PriorRun, names: seq<string>, m: set<string>, s: set<string>)
    requires WellFormed(g) && forall n <- names :: n in g.inputs
    ensures m <= Sweep(g, names, m) <= m + (set n | n in names)
    ensures Closed(g, prior, s) && m <= s ==> Sweep(g, names, m) <= s
    ensures Sweep(g, names, m) == m ==> forall n <- names :: !JoinsNow(g, n, m)
  {
    hide SeedOf, ReferenceOf;
    if names != [] {
      var k := |names| - 1;
      assert names[k] in names && names == names[..k] + [names[k]];
      SweepGrows(g, prior, names[..k], m, s);
    }
  }

  lemma RoundGrows(g: Graph, prior: PriorRun, m: set<string>, s: set<string>)
    requires WellFormed(g) && m <= g.inputs.Keys
    ensures m <= Swept(g, m) <= Round(g, prior, m) <= g.inputs.Keys
    ensures Closed(g, prior, s) && m <= s ==> Round(g, prior, m) <= s
    ensures Round(g, prior, m) == m ==> Swept(g, m) == m && forall n <- g.inputs.Keys :: !JoinsNow(g, n, m)
  {
    hide SeedOf, ReferenceOf, Sorted, Sweep, JoinsNow;
    SweepGrows(g, prior, Sorted(g.inputs.Keys), m, s);
  }

  /** A set a round leaves alone, between the seed and every closed set, is the least one. */
  lemma FixpointIsLeast(g: Graph, prior: PriorRun, m: set<string>)
    requires WellFormed(g) && SeedOf(g, prior) <= m <= g.inputs.Keys && Round(g, prior, m) == m
    requires forall s :: Closed(g, prior, s) ==> m <= s
    ensures IsMustRun(g, prior, m)
  {
    hide SeedOf, ReferenceOf, Sweep, Sorted;
    RoundGrows(g, prior, m, m);
    forall n, u | n in g.inputs && u in Upstreams(g, n) && u in m ensures n in m {
      assert !JoinsNow(g, n, m);
    }
    forall c, p | c in m && c in g.inputs && p in g.inputs[c] && ReferenceOf(g, prior, p).None? ensures p in m {
      assert p in m || p in Wanted(g, m);
    }
  }

  lemma AfterStaysBelow(g: Graph, prior: PriorRun, k: nat)
    requires WellFormed(g)
    ensures SeedOf(g, prior) <= After(g, prior, k) <= g.inputs.Keys
    ensures forall s :: Closed(g, prior, s) ==> After(g, prior, k) <= s
  {
    hide Round, ReferenceOf;
    if k > 0 {
      AfterStaysBelow(g, prior, k - 1);
      forall s | Closed(g, prior, s) ensures After(g, prior, k) <= s
          { RoundGrows(g, prior, After(g, prior, k - 1), s); }
      RoundGrows(g, prior, After(g, prior, k - 1), {});
    }
  }

  /** Past a fixpoint nothing changes. */
  lemma {:induction false} StaysPut(g: Graph, prior: PriorRun, k: nat, j: nat)
    requires WellFormed(g) && k <= j && After(g, prior, k + 1) == After(g, prior, k)
    ensures After(g, prior, j) == After(g, prior, k)
    decreases j
  {
    hide Round;
    if k < j { StaysPut(g, prior, k, j - 1); }
  }

  // ---- The algorithm -------------------------------------------------------

  datatype Demand = Demand(mustRun: set<string>, rehydrate: map<string, string>)

  method ComputeSeed(g: Graph, prior: PriorRun) returns (seed: set<string>)
    ensures seed == SeedOf(g, prior)
  {
    hide Sorted;
    var names := Sorted(g.inputs.Keys);
    seed := {};
    for i := 0 to |names|
      invariant seed == set n | n in names[..i] && (!DidSucceed(prior, n) || n in g.covered)
    {
      assert names[..i + 1] == names[..i] + [names[i]];
      if !DidSucceed(prior, names[i]) || names[i] in g.covered { seed := seed + {names[i]}; }
    }
    assert names[..|names|] == names;
  }

  /** The downward sweep. */
  method CloseDownward(g: Graph, start: set<string>) returns (mustRun: set<string>)
    requires WellFormed(g)
    ensures mustRun == Swept(g, start)
  {
    hide Sorted, JoinsNow, WellFormed, Sweep;
    var names := Sorted(g.inputs.Keys);
    mustRun := start;
    SweepStarts(g, names, start);
    for i := 0 to |names|
      invariant mustRun == Sweep(g, names[..i], start)
    {
      SweepStep(g, names, i, start);
      if JoinsNow(g, names[i], mustRun) { mustRun := mustRun + {names[i]}; }
    }
    assert names[..|names|] == names;
  }

  lemma SweepStarts(g: Graph, names: seq<string>, m: set<string>)
    requires WellFormed(g) && forall n <- names :: n in g.inputs
    ensures Sweep(g, names[..0], m) == m
  {}

  lemma SweepStep(g: Graph, names: seq<string>, i: nat, m: set<string>)
    requires WellFormed(g) && i < |names| && forall n <- names :: n in g.inputs
    ensures names[i] in g.inputs
    ensures var before := Sweep(g, names[..i], m);
            Sweep(g, names[..i + 1], m) == if JoinsNow(g, names[i], before) then before + {names[i]} else before
  {
    hide JoinsNow;
    assert names[i] in names && names[..i + 1][..i] == names[..i];
  }

  /** Only what can be rehydrated is, and probing it did not refuse. */
  ghost predicate Sound(g: Graph, prior: PriorRun, probe: Probe, d: map<string, string>) {
    forall p <- d.Keys :: ReferenceOf(g, prior, p) == Some(d[p]) && Trouble(g, prior, probe, p).None?
  }

  /** The demands of part of a snapshot taken at `m` have been met. */
  ghost predicate Met(g: Graph, prior: PriorRun, m: set<string>, was: Demand, now: Demand, met: set<string>) {
    && now.mustRun == m + InMemory(g, prior, met)
    && now.rehydrate.Keys == was.rehydrate.Keys + (met - InMemory(g, prior, met))
  }

  /** Meet one consumer's demand for one producer. */
  method MeetOne(g: Graph, prior: PriorRun, probe: Probe, d: Demand, producer: string, ghost m: set<string>,
          ghost was: Demand, ghost met: set<string>)
      returns (r: Result<Demand, Refusal>)
    requires Met(g, prior, m, was, d, met) && Sound(g, prior, probe, d.rehydrate)
    ensures r.Ok? ==> Met(g, prior, m, was, r.value, met + ({producer} - m))
    ensures r.Ok? ==> Sound(g, prior, probe, r.value.rehydrate)
    ensures r.Err? ==> producer !in m && Some(r.error) == Trouble(g, prior, probe, producer)
  {
    if producer in d.mustRun { return Ok(d); }
    match ReferenceOf(g, prior, producer)
    case None =>
      r := Ok(Demand(d.mustRun + {producer}, d.rehydrate - {producer}));
    case Some(reference) =>
      var expected := HashOf(g, prior, producer);
      match probe(producer, reference, expected) {
        case Absent => return Err(Dangling(producer, reference));
        case Changed(actual) =>
          return Err(Mutated(producer, reference, match expected case Some(h) => h case None => "", actual));
        case _ =>
      }
      r := Ok(d.(rehydrate := d.rehydrate[producer := reference]));
  }

  function Members(xs: seq<string>): set<string> { set x | x in xs }

  /** Meet one consumer's demands, in input order. */
  method MeetConsumer(g: Graph, prior: PriorRun, probe: Probe, d: Demand, consumer: string,
          ghost m: set<string>, ghost was: Demand, ghost met: set<string>)
      returns (r: Result<Demand, Refusal>)
    requires consumer in g.inputs
    requires Met(g, prior, m, was, d, met) && Sound(g, prior, probe, d.rehydrate)
    ensures r.Ok? ==> Met(g, prior, m, was, r.value, met + (Members(g.inputs[consumer]) - m))
    ensures r.Ok? ==> Sound(g, prior, probe, r.value.rehydrate)
    ensures r.Err? ==> exists p <- g.inputs[consumer] :: p !in m && Some(r.error) == Trouble(g, prior, probe, p)
  {
    hide Met, Sound, Trouble;
    var producers, now := g.inputs[consumer], d;
    assert met + (Members(producers[..0]) - m) == met;
    for i := 0 to |producers|
      invariant Met(g, prior, m, was, now, met + (Members(producers[..i]) - m)) && Sound(g, prior, probe, now.rehydrate)
    {
      assert met + (Members(producers[..i]) - m) + ({producers[i]} - m) == met + (Members(producers[..i + 1]) - m);
      r := MeetOne(g, prior, probe, now, producers[i], m, was, met + (Members(producers[..i]) - m));
      if r.Err? { return; }
      now := r.value;
    }
    assert producers[..|producers|] == producers;
    r := Ok(now);
  }

  function WantedBy(g: Graph, m: set<string>, consumers: seq<string>): set<string> {
    set c, p | c in consumers && c in g.inputs && p in g.inputs[c] && p !in m :: p
  }

  lemma WantedByOneMore(g: Graph, m: set<string>, consumers: seq<string>, i: nat)
    requires i < |consumers|
    ensures WantedBy(g, m, consumers[..i + 1]) ==
            WantedBy(g, m, consumers[..i]) + (if consumers[i] in g.inputs then Members(g.inputs[consumers[i]]) - m
                else {})
  {
    assert consumers[..i + 1] == consumers[..i] + [consumers[i]];
    var all, earlier := WantedBy(g, m, consumers[..i + 1]), WantedBy(g, m, consumers[..i]);
    var added := if consumers[i] in g.inputs then Members(g.inputs[consumers[i]]) - m else {};
    forall p ensures p in all <==> p in earlier || p in added {
      if p in all {
        var c :| c in consumers[..i + 1] && c in g.inputs && p in g.inputs[c] && p !in m;
        if c in consumers[..i] { assert p in earlier; } else { assert c == consumers[i]; }
      }
      if p in added { assert consumers[i] in consumers[..i + 1]; }
      if p in earlier {
        var c :| c in consumers[..i] && c in g.inputs && p in g.inputs[c] && p !in m;
        assert c in consumers[..i + 1];
      }
    }
  }

  lemma WantedByAll(g: Graph, m: set<string>, consumers: seq<string>)
    requires forall c :: c in consumers <==> c in m
    ensures WantedBy(g, m, consumers) == Wanted(g, m)
  {
    forall p ensures p in WantedBy(g, m, consumers) <==> p in Wanted(g, m) {
      if p in WantedBy(g, m, consumers) {
        var c :| c in consumers && c in g.inputs && p in g.inputs[c] && p !in m;
        assert c in m;
      }
      if p in Wanted(g, m) {
        var c :| c in m && c in g.inputs && p in g.inputs[c] && p !in m;
        assert c in consumers;
      }
    }
  }

  /** The upward half of a round: every member of the snapshot demands its inputs. */
  method DemandUpward(g: Graph, prior: PriorRun, probe: Probe, d: Demand) returns (r: Result<Demand, Refusal>)
    requires Sound(g, prior, probe, d.rehydrate)
    ensures r.Ok? ==> Met(g, prior, d.mustRun, d, r.value, Wanted(g, d.mustRun))
    ensures r.Ok? ==> Sound(g, prior, probe, r.value.rehydrate)
    ensures r.Err? ==> exists p <- Wanted(g, d.mustRun) :: Some(r.error) == Trouble(g, prior, probe, p)
  {
    hide Met, Sound, Trouble, Sorted, Wanted;
    ghost var m := d.mustRun;
    var demanders, now := Sorted(d.mustRun), d;
    NothingMet(g, prior, d);
    assert WantedBy(g, m, demanders[..0]) == {};
    for i := 0 to |demanders|
      invariant Met(g, prior, m, d, now, WantedBy(g, m, demanders[..i])) && Sound(g, prior, probe, now.rehydrate)
    {
      WantedByOneMore(g, m, demanders, i);
      if demanders[i] in g.inputs {
        r := MeetConsumer(g, prior, probe, now, demanders[i], m, d, WantedBy(g, m, demanders[..i]));
        if r.Err? {
          WantedByAll(g, m, demanders);
          ghost var p :| p in g.inputs[demanders[i]] && p !in m && Some(r.error) == Trouble(g, prior, probe, p);
          assert p in WantedBy(g, m, demanders);
          return;
        }
        now := r.value;
        assert WantedBy(g, m, demanders[..i + 1]) ==
            WantedBy(g, m, demanders[..i]) + (Members(g.inputs[demanders[i]]) - m);
      } else {
        assert WantedBy(g, m, demanders[..i + 1]) == WantedBy(g, m, demanders[..i]);
      }
    }
    assert demanders[..|demanders|] == demanders;
    WantedByAll(g, m, demanders);
    r := Ok(now);
  }

  lemma NothingMet(g: Graph, prior: PriorRun, d: Demand)
    ensures Met(g, prior, d.mustRun, d, d, {})
  {}

  lemma SameOrLarger(a: set<string>, b: set<string>)
    requires a <= b
    ensures a == b || (|a| < |b| && exists x :: x in b && x !in a)
  {
    assert b == a + (b - a);
    assert |b| == |a| + |b - a|;
    if b - a != {} { var x :| x in b - a; }
  }

  /** The rounds' outcome so far: rehydrated is exactly what some round before `k` probed. */
  ghost predicate Progress(g: Graph, prior: PriorRun, probe: Probe, d: Demand, k: nat)
    requires WellFormed(g)
  {
    && d.mustRun == After(g, prior, k)
    && Sound(g, prior, probe, d.rehydrate)
    && (forall p :: p in d.rehydrate <==> exists j: nat :: j < k && RehydratedIn(g, prior, j, p))
  }

  lemma RoundProgress(g: Graph, prior: PriorRun, probe: Probe, d: Demand, swept: Demand, now: Demand, k: nat)
    requires WellFormed(g) && Progress(g, prior, probe, d, k)
    requires swept == d.(mustRun := Swept(g, d.mustRun))
    requires Met(g, prior, swept.mustRun, swept, now, Wanted(g, swept.mustRun)) && Sound(g, prior, probe, now.rehydrate)
    ensures Progress(g, prior, probe, now, k + 1)
  {
    hide Sound, Swept, Wanted, ReferenceOf;
    forall p ensures p in now.rehydrate <==> exists j: nat :: j < k + 1 && RehydratedIn(g, prior, j, p) {
      if RehydratedIn(g, prior, k, p) { assert k < k + 1; }
    }
  }

  /** `resolve_demand`: rounds until nothing joins. */
  method ResolveDemand(g: Graph, prior: PriorRun, seed: set<string>, probe: Probe) returns (r: Result<Demand, Refusal>)
    requires WellFormed(g) && seed == SeedOf(g, prior)
    ensures r.Ok? ==> IsMustRun(g, prior, r.value.mustRun)
    ensures r.Ok? ==> forall p :: p in r.value.rehydrate <==> exists k: nat :: RehydratedIn(g, prior, k, p)
    ensures r.Ok? ==> Sound(g, prior, probe, r.value.rehydrate)
    ensures r.Err? ==> exists k: nat, p :: RehydratedIn(g, prior, k, p) && Some(r.error) == Trouble(g, prior, probe, p)
  {
    hide SeedOf, Swept, Met, Sound, Wanted, IsMustRun, Closed, RehydratedIn, Trouble, Round;
    var d := Demand(seed, map[]);
    ghost var k := 0;
    assert Sound(g, prior, probe, map[]) by { NothingRehydrated(g, prior, probe); }
    AfterStaysBelow(g, prior, 0);
    while true
      invariant Progress(g, prior, probe, d, k) && d.mustRun <= g.inputs.Keys
      decreases g.inputs.Keys - d.mustRun
    {
      var swept := CloseDownward(g, d.mustRun);
      var met := DemandUpward(g, prior, probe, d.(mustRun := swept));
      if met.Err? {
        ghost var p :| p in Wanted(g, swept) && Some(met.error) == Trouble(g, prior, probe, p);
        ProbedIsRehydrated(g, prior, probe, k, p);
        return Err(met.error);
      }
      RoundProgress(g, prior, probe, d, d.(mustRun := swept), met.value, k);
      AfterStaysBelow(g, prior, k + 1);
      OneMoreRound(g, prior, k);
      SameOrLarger(d.mustRun, met.value.mustRun);
      if |met.value.mustRun| == |d.mustRun| {
        Finished(g, prior, probe, met.value, k);
        return Ok(met.value);
      }
      d := met.value;
      k := k + 1;
    }
  }

  lemma NothingRehydrated(g: Graph, prior: PriorRun, probe: Probe)
    ensures Sound(g, prior, probe, map[])
  {}

  lemma OneMoreRound(g: Graph, prior: PriorRun, k: nat)
    requires WellFormed(g)
    ensures After(g, prior, k) <= After(g, prior, k + 1)
  {
    hide Round;
    AfterStaysBelow(g, prior, k);
    RoundGrows(g, prior, After(g, prior, k), {});
  }

  lemma ProbedIsRehydrated(g: Graph, prior: PriorRun, probe: Probe, k: nat, p: string)
    requires WellFormed(g) && p in Wanted(g, Swept(g, After(g, prior, k))) && Trouble(g, prior, probe, p).Some?
    ensures RehydratedIn(g, prior, k, p)
  {}

  lemma Finished(g: Graph, prior: PriorRun, probe: Probe, d: Demand, k: nat)
    requires WellFormed(g) && Progress(g, prior, probe, d, k + 1) && After(g, prior, k + 1) == After(g, prior, k)
    ensures IsMustRun(g, prior, d.mustRun)
    ensures forall p :: p in d.rehydrate <==> exists j: nat :: RehydratedIn(g, prior, j, p)
  {
    hide Sound, Round, Closed, IsMustRun, RehydratedIn, SeedOf;
    AfterStaysBelow(g, prior, k);
    FixpointIsLeast(g, prior, After(g, prior, k));
    forall j: nat, p | RehydratedIn(g, prior, j, p) ensures exists i: nat :: i < k + 1 && RehydratedIn(g, prior, i, p) {
      if k < j {
        StaysPut(g, prior, k, j);
        SameRehydrated(g, prior, k, j, p);
      }
    }
  }

  lemma SameRehydrated(g: Graph, prior: PriorRun, k: nat, j: nat, p: string)
    requires WellFormed(g) && After(g, prior, j) == After(g, prior, k)
    ensures RehydratedIn(g, prior, j, p) == RehydratedIn(g, prior, k, p)
  {}

  // ---- What a plan does mean -----------------------------------------------

  lemma {:induction false} RoundsEnd(g: Graph, prior: PriorRun, k: nat) returns (j: nat)
    requires WellFormed(g)
    ensures After(g, prior, j + 1) == After(g, prior, j)
    decreases |g.inputs.Keys| - |After(g, prior, k)|
  {
    hide Round;
    AfterStaysBelow(g, prior, k);
    AfterStaysBelow(g, prior, k + 1);
    OneMoreRound(g, prior, k);
    SameOrLarger(After(g, prior, k), After(g, prior, k + 1));
    SameOrLarger(After(g, prior, k), g.inputs.Keys);
    SameOrLarger(After(g, prior, k + 1), g.inputs.Keys);
    if After(g, prior, k + 1) == After(g, prior, k) { j := k; } else { j := RoundsEnd(g, prior, k + 1); }
  }

  lemma MustRunIsReached(g: Graph, prior: PriorRun, m: set<string>) returns (j: nat)
    requires WellFormed(g) && IsMustRun(g, prior, m)
    ensures After(g, prior, j) == m && Swept(g, m) == m
  {
    hide Round, Closed, SeedOf, Sweep;
    j := RoundsEnd(g, prior, 0);
    AfterStaysBelow(g, prior, j);
    FixpointIsLeast(g, prior, After(g, prior, j));
    MustRunIsUnique(g, prior, m, After(g, prior, j));
    RoundGrows(g, prior, m, m);
  }

  /** The node is needed from the prior run: a re-running consumer wants it and it stays. */
  predicate Needed(g: Graph, m: set<string>, p: string) { p in Wanted(g, m) }

  /** **Every demand is met**: what a re-running consumer needs from a node that does not run
      again is rehydrated; and whatever else is rehydrated runs again anyway. */
  lemma RehydratedIsNeededOrRunsAgain(g: Graph, prior: PriorRun, m: set<string>, p: string)
    requires WellFormed(g) && IsMustRun(g, prior, m)
    ensures Needed(g, m, p) ==> exists k: nat :: RehydratedIn(g, prior, k, p)
    ensures (exists k: nat :: RehydratedIn(g, prior, k, p)) ==> Needed(g, m, p) || p in m
  {
    hide Swept, Round, SeedOf, ReferenceOf;
    var j := MustRunIsReached(g, prior, m);
    if Needed(g, m, p) {
      var c :| c in m && c in g.inputs && p in g.inputs[c] && p !in m;
      assert RehydratedIn(g, prior, j, p);
    }
    if k: nat :| RehydratedIn(g, prior, k, p) {
      AfterStaysBelow(g, prior, k);
      AfterStaysBelow(g, prior, k + 1);
      SweptIsBelow(g, prior, k);
    }
  }

  lemma SweptIsBelow(g: Graph, prior: PriorRun, k: nat)
    requires WellFormed(g)
    ensures Swept(g, After(g, prior, k)) <= After(g, prior, k + 1)
  {
    hide Round, SeedOf;
    AfterStaysBelow(g, prior, k);
    RoundGrows(g, prior, After(g, prior, k), {});
  }

  /** A producer rehydrated in one round and reached by the downward sweep of a later one. */
  ghost predicate Overtaken(g: Graph, prior: PriorRun, p: string)
    requires WellFormed(g)
  {
    exists k: nat, j: nat :: k < j && RehydratedIn(g, prior, k, p) && p in Swept(g, After(g, prior, j))
  }

  lemma {:induction false} AfterGrows(g: Graph, prior: PriorRun, k: nat, j: nat)
    requires WellFormed(g) && k <= j
    ensures After(g, prior, k) <= After(g, prior, j)
    decreases j
  {
    hide Round;
    if k < j {
      AfterGrows(g, prior, k, j - 1);
      OneMoreRound(g, prior, j - 1);
    }
  }

  /** In terms of the rounds: nothing rehydrated runs again exactly when no producer is
      overtaken, demanded in a round the sweep had not yet reached it in. */
  lemma DisjointExactlyWhenNoneOvertaken(g: Graph, prior: PriorRun, m: set<string>, rehydrate: map<string, string>)
    requires WellFormed(g) && IsMustRun(g, prior, m)
    requires forall p :: p in rehydrate <==> exists k: nat :: RehydratedIn(g, prior, k, p)
    ensures rehydrate.Keys !! m <==> forall p :: !Overtaken(g, prior, p)
  {
    hide Swept, Round, SeedOf, ReferenceOf, IsMustRun, RehydratedIn, Closed;
    var end := MustRunIsReached(g, prior, m);
    forall p | Overtaken(g, prior, p) ensures p in m {
      var k: nat, j: nat :| k < j && RehydratedIn(g, prior, k, p) && p in Swept(g, After(g, prior, j));
      SweptIsBelow(g, prior, j);
      InLeast(g, prior, m, j + 1);
    }
    forall p | p in rehydrate && p in m ensures Overtaken(g, prior, p) {
      var k: nat :| RehydratedIn(g, prior, k, p);
      var j := if k < end then end else k + 1;
      AfterGrows(g, prior, end, j);
      InSwept(g, prior, j);
    }
  }

  lemma InLeast(g: Graph, prior: PriorRun, m: set<string>, k: nat)
    requires WellFormed(g) && IsMustRun(g, prior, m)
    ensures After(g, prior, k) <= m
  {
    hide Closed;
    AfterStaysBelow(g, prior, k);
  }

  lemma InSwept(g: Graph, prior: PriorRun, k: nat)
    requires WellFormed(g)
    ensures After(g, prior, k) <= Swept(g, After(g, prior, k))
  {
    hide Round, SeedOf;
    AfterStaysBelow(g, prior, k);
    RoundGrows(g, prior, After(g, prior, k), {});
  }

  lemma {:induction false} SweepIdles(g: Graph, names: seq<string>, m: set<string>)
    requires WellFormed(g) && forall n <- names :: n in g.inputs && !JoinsNow(g, n, m)
    ensures Sweep(g, names, m) == m
  {
    hide JoinsNow;
    if names != [] {
      var k := |names| - 1;
      assert names[k] in names && names == names[..k] + [names[k]];
      SweepIdles(g, names[..k], m);
    }
  }

  // ---- A condition on the graph alone --------------------------------------

  /** Closed, save that `p` need not be a member. */
  ghost predicate ClosedBut(g: Graph, prior: PriorRun, p: string, s: set<string>)
    requires WellFormed(g)
  {
    && SeedOf(g, prior) <= s
    && (forall n, u :: n in g.inputs && n != p && u in Upstreams(g, n) && u in s ==> n in s)
    && (forall c, q :: c in s && c in g.inputs && q in g.inputs[c] && ReferenceOf(g, prior, q).None? ==> q in s)
  }

  /** `p` must run again, although its value could be rehydrated, and some consumer of it
      would run again even if `p` did not. */
  ghost predicate Contested(g: Graph, prior: PriorRun, p: string)
    requires WellFormed(g)
  {
    && p !in SeedOf(g, prior) && ReferenceOf(g, prior, p).Some?
    && (forall s :: Closed(g, prior, s) ==> p in s)
    && exists c <- g.inputs.Keys :: p in g.inputs[c] && forall s :: ClosedBut(g, prior, p, s) ==> c in s
  }

  lemma {:induction false} SweepStaysBelowBut(g: Graph, prior: PriorRun, names: seq<string>, m: set<string>,
          p: string, s: set<string>)
    requires WellFormed(g) && (forall n <- names :: n in g.inputs)
    requires ClosedBut(g, prior, p, s) && m <= s && p !in Sweep(g, names, m)
    ensures Sweep(g, names, m) <= s
  {
    hide SeedOf, ReferenceOf;
    if names != [] {
      var k := |names| - 1;
      assert names[k] in names && names == names[..k] + [names[k]];
      SweepStaysBelowBut(g, prior, names[..k], m, p, s);
    }
  }

  /** Until `p` is reached, nothing joins that would not join without it. */
  lemma {:induction false} RoundsStayBelowBut(g: Graph, prior: PriorRun, k: nat, p: string, s: set<string>)
    requires WellFormed(g) && ClosedBut(g, prior, p, s) && ReferenceOf(g, prior, p).Some?
    requires p !in Swept(g, After(g, prior, k))
    ensures Swept(g, After(g, prior, k)) <= s
  {
    hide WellFormed, Round, Swept, SeedOf, ReferenceOf, ClosedBut;
    if k == 0 {
      SeedIsBelowBut(g, prior, p, s);
    } else {
      SweptGrows(g, prior, k - 1);
      RoundsStayBelowBut(g, prior, k - 1, p, s);
      RoundStaysBelowBut(g, prior, After(g, prior, k - 1), p, s);
    }
    SweptStaysBelowBut(g, prior, After(g, prior, k), p, s);
  }

  lemma SeedIsBelowBut(g: Graph, prior: PriorRun, p: string, s: set<string>)
    requires WellFormed(g) && ClosedBut(g, prior, p, s)
    ensures SeedOf(g, prior) <= s
  {}

  lemma SweptGrows(g: Graph, prior: PriorRun, k: nat)
    requires WellFormed(g)
    ensures Swept(g, After(g, prior, k)) <= Swept(g, After(g, prior, k + 1))
  {
    hide WellFormed, Swept, Round, SeedOf, ReferenceOf;
    AfterStaysBelow(g, prior, k);
    RoundGrows(g, prior, After(g, prior, k), {});
    InSwept(g, prior, k + 1);
  }

  lemma SweptStaysBelowBut(g: Graph, prior: PriorRun, m: set<string>, p: string, s: set<string>)
    requires WellFormed(g) && ClosedBut(g, prior, p, s) && m <= s && p !in Swept(g, m)
    ensures Swept(g, m) <= s
  {
    hide ClosedBut, Sweep, Sorted;
    SweepStaysBelowBut(g, prior, Sorted(g.inputs.Keys), m, p, s);
  }

  lemma RoundStaysBelowBut(g: Graph, prior: PriorRun, m: set<string>, p: string, s: set<string>)
    requires WellFormed(g) && ClosedBut(g, prior, p, s) && Swept(g, m) <= s
    ensures Round(g, prior, m) <= s
  {
    hide ReferenceOf, SeedOf, Swept;
  }

  lemma OvertakenIsContested(g: Graph, prior: PriorRun, p: string)
    requires WellFormed(g) && Overtaken(g, prior, p)
    ensures Contested(g, prior, p)
  {
    hide Swept, Round, ReferenceOf, Closed, ClosedBut;
    var k: nat, j: nat :| k < j && RehydratedIn(g, prior, k, p) && p in Swept(g, After(g, prior, j));
    var swept := Swept(g, After(g, prior, k));
    var c :| c in swept && c in g.inputs && p in g.inputs[c] && p !in swept;
    AfterGrows(g, prior, 0, k);
    InSwept(g, prior, k);
    SweptIsBelow(g, prior, j);
    AfterStaysBelow(g, prior, j + 1);
    forall s | ClosedBut(g, prior, p, s) ensures c in s { RoundsStayBelowBut(g, prior, k, p, s); }
  }

  /** **A condition to check first**: where no node is contested, nothing rehydrated runs
      again, whatever order the nodes' names put them in. */
  lemma DisjointWhenNoneContested(g: Graph, prior: PriorRun, m: set<string>, rehydrate: map<string, string>)
    requires WellFormed(g) && IsMustRun(g, prior, m)
    requires forall p :: p in rehydrate <==> exists k: nat :: RehydratedIn(g, prior, k, p)
    requires forall p :: !Contested(g, prior, p)
    ensures rehydrate.Keys !! m
  {
    hide Contested, Overtaken, RehydratedIn, IsMustRun;
    forall p ensures !Overtaken(g, prior, p) {
      if Overtaken(g, prior, p) { OvertakenIsContested(g, prior, p); }
    }
    DisjointExactlyWhenNoneOvertaken(g, prior, m, rehydrate);
  }

  // ---- Where a node is contested, its name decides --------------------------

  /** A covered node, a value in memory made from it, a durable value of that name made from
      that, and a failed consumer. */
  function ChainGraph(name: string): Graph {
    Graph(map["b" := ["c"], "c" := [], "x" := [name], name := ["b"]],
          map["b" := [], "c" := [], "x" := [], name := []], {name}, {"c"})
  }

  function ChainRun(name: string, reference: string): PriorRun {
    PriorRun(0, 0, 0, "", map[
      "b" := PriorNode(Succeeded, None, None, "run"),
      "c" := PriorNode(Succeeded, None, None, "run"),
      "x" := PriorNode(Failed, None, None, "run"),
      name := PriorNode(Succeeded, Some(reference), None, "run")])
  }

  predicate ChainName(name: string) { name == "a" || name == "y" }

  lemma ChainShape(name: string)
    requires ChainName(name)
    ensures var g := ChainGraph(name);
            && WellFormed(g) && g.inputs.Keys == {"b", "c", "x", name}
            && Upstreams(g, "b") == ["c"] && Upstreams(g, "c") == [] && Upstreams(g, "x") == [name]
            && Upstreams(g, name) == ["b"]
  {}

  lemma ChainSeed(name: string, reference: string)
    requires ChainName(name)
    ensures SeedOf(ChainGraph(name), ChainRun(name, reference)) == {"c", "x"}
    ensures ReferenceOf(ChainGraph(name), ChainRun(name, reference), name) == Some(reference)
  {}

  lemma ChainInputs(name: string)
    requires ChainName(name)
    ensures name in ChainGraph(name).inputs["x"]
    ensures forall n <- ChainGraph(name).inputs.Keys :: forall q <- ChainGraph(name).inputs[n] :: q in {"b", "c", name}
  {
    assert ChainGraph(name).inputs["x"][0] == name;
  }

  lemma ChainIsContested(name: string, reference: string)
    requires ChainName(name)
    ensures WellFormed(ChainGraph(name)) && Contested(ChainGraph(name), ChainRun(name, reference), name)
  {
    hide SeedOf, ReferenceOf, WellFormed, ChainGraph, Upstreams;
    var g, prior := ChainGraph(name), ChainRun(name, reference);
    ChainShape(name);
    ChainSeed(name, reference);
    ChainInputs(name);
    forall s | Closed(g, prior, s) ensures name in s {
      assert "c" in s && Upstreams(g, "b")[0] == "c";
      assert "b" in s && Upstreams(g, name)[0] == "b";
    }
    assert forall s :: ClosedBut(g, prior, name, s) ==> "x" in s;
  }

  lemma SortedFour(a: string, b: string, c: string, d: string)
    requires LexLe(a, b) && LexLe(b, c) && LexLe(c, d) && a != b && b != c && c != d
    ensures Sorted({a, b, c, d}) == [a, b, c, d]
  {
    hide LexLe;
    LexTransitive(a, b, c);
    LexTransitive(b, c, d);
    LexTransitive(a, c, d);
    if a == c { LexAntisymmetric(a, b); }
    if b == d { LexAntisymmetric(b, c); }
    if a == d { LexAntisymmetric(a, c); }
    SortedIs({a, b, c, d}, [a, b, c, d]);
  }

  lemma LetterOrder()
    ensures LexLe("a", "b") && LexLe("b", "c") && LexLe("c", "x") && LexLe("x", "y")
  {}

  lemma SortedChains()
    ensures Sorted({"b", "c", "x", "a"}) == ["a", "b", "c", "x"] && Sorted({"b", "c", "x", "y"}) == ["b", "c", "x", "y"]
  {
    hide LexLe, Sorted;
    LetterOrder();
    SortedFour("a", "b", "c", "x");
    SortedFour("b", "c", "x", "y");
    assert {"b", "c", "x", "a"} == {"a", "b", "c", "x"};
  }

  lemma SweepNext(g: Graph, names: seq<string>, n: string, m: set<string>)
    requires WellFormed(g) && (forall k <- names :: k in g.inputs) && n in g.inputs
    ensures Sweep(g, names + [n], m) ==
            if JoinsNow(g, n, Sweep(g, names, m)) then Sweep(g, names, m) + {n} else Sweep(g, names, m)
  {
    hide JoinsNow;
    assert (names + [n])[..|names|] == names;
  }

  lemma JoinsAfter(g: Graph, n: string, u: string, m: set<string>)
    requires WellFormed(g) && n in g.inputs && Upstreams(g, n) == [u]
    ensures JoinsNow(g, n, m) <==> n !in m && u in m
  {
    assert Upstreams(g, n)[0] == u;
  }

  /** Swept before the value it is made from, a node waits a round. */
  lemma SweepFirst(g: Graph, a: string, b: string, c: string, x: string)
    requires WellFormed(g) && a in g.inputs && b in g.inputs && c in g.inputs && x in g.inputs
    requires Upstreams(g, a) == [b] && Upstreams(g, b) == [c] && a !in {b, c, x} && b !in {c, x}
    ensures Sweep(g, [a, b, c, x], {c, x}) == {b, c, x}
  {
    hide WellFormed, Upstreams, Sweep, JoinsNow;
    SweepNone(g, {c, x});
    JoinsAfter(g, a, b, {c, x});
    SweepNext(g, [], a, {c, x});
    assert [] + [a] == [a];
    JoinsAfter(g, b, c, {c, x});
    SweepNext(g, [a], b, {c, x});
    assert [a] + [b] == [a, b] && {c, x} + {b} == {b, c, x};
    MembersStay(g, c, {b, c, x});
    SweepNext(g, [a, b], c, {c, x});
    assert [a, b] + [c] == [a, b, c];
    MembersStay(g, x, {b, c, x});
    SweepNext(g, [a, b, c], x, {c, x});
    assert [a, b, c] + [x] == [a, b, c, x];
  }

  /** Swept after it, it joins at once. */
  lemma SweepLast(g: Graph, y: string, b: string, c: string, x: string)
    requires WellFormed(g) && y in g.inputs && b in g.inputs && c in g.inputs && x in g.inputs
    requires Upstreams(g, y) == [b] && Upstreams(g, b) == [c] && y !in {b, c, x} && b !in {c, x}
    ensures Sweep(g, [b, c, x, y], {c, x}) == {b, c, x, y}
  {
    hide WellFormed, Upstreams, Sweep, JoinsNow;
    SweepNone(g, {c, x});
    JoinsAfter(g, b, c, {c, x});
    SweepNext(g, [], b, {c, x});
    assert [] + [b] == [b] && {c, x} + {b} == {b, c, x};
    MembersStay(g, c, {b, c, x});
    SweepNext(g, [b], c, {c, x});
    assert [b] + [c] == [b, c];
    MembersStay(g, x, {b, c, x});
    SweepNext(g, [b, c], x, {c, x});
    assert [b, c] + [x] == [b, c, x];
    JoinsAfter(g, y, b, {b, c, x});
    SweepNext(g, [b, c, x], y, {c, x});
    assert [b, c, x] + [y] == [b, c, x, y] && {b, c, x} + {y} == {b, c, x, y};
  }

  lemma SweepA()
    ensures WellFormed(ChainGraph("a")) && Swept(ChainGraph("a"), {"c", "x"}) == {"b", "c", "x"}
  {
    hide ChainGraph, WellFormed, Sorted, Upstreams, Sweep;
    ChainShape("a");
    SortedChains();
    SweepFirst(ChainGraph("a"), "a", "b", "c", "x");
  }

  lemma SweepY()
    ensures WellFormed(ChainGraph("y")) && Swept(ChainGraph("y"), {"c", "x"}) == {"b", "c", "x", "y"}
  {
    hide ChainGraph, WellFormed, Sorted, Upstreams, Sweep;
    ChainShape("y");
    SortedChains();
    SweepLast(ChainGraph("y"), "y", "b", "c", "x");
  }

  lemma MembersStay(g: Graph, n: string, m: set<string>)
    requires WellFormed(g) && n in g.inputs && n in m
    ensures !JoinsNow(g, n, m)
  {}

  lemma SweepNone(g: Graph, m: set<string>)
    requires WellFormed(g)
    ensures Sweep(g, [], m) == m
  {}

  lemma {:induction false} ChainYNeverRehydrates(reference: string, k: nat, p: string)
    ensures WellFormed(ChainGraph("y")) && !RehydratedIn(ChainGraph("y"), ChainRun("y", reference), k, p)
  {
    hide ChainGraph, WellFormed, Sorted, Upstreams, Sweep, SeedOf, ReferenceOf, Round;
    var g, prior := ChainGraph("y"), ChainRun("y", reference);
    ChainShape("y");
    ChainSeed("y", reference);
    ChainInputs("y");
    SweepY();
    AfterGrows(g, prior, 0, k);
    AfterStaysBelow(g, prior, k);
    RoundGrows(g, prior, After(g, prior, k), {});
    if k > 0 {
      AfterGrows(g, prior, 1, k);
      SweptIsBelow(g, prior, 0);
      InSwept(g, prior, k);
    }
    assert Swept(g, After(g, prior, k)) == {"b", "c", "x", "y"};
  }

  /** **No order-free condition is exact.** The two graphs differ in one node's name. Both are
      contested at it; under `a` it is rehydrated and runs again, under `y` it is not. */
  lemma TheNameDecides(reference: string)
    ensures WellFormed(ChainGraph("a")) && WellFormed(ChainGraph("y"))
    ensures Contested(ChainGraph("a"), ChainRun("a", reference), "a")
    ensures Contested(ChainGraph("y"), ChainRun("y", reference), "y")
    ensures RehydratedIn(ChainGraph("a"), ChainRun("a", reference), 0, "a")
    ensures forall s :: Closed(ChainGraph("a"), ChainRun("a", reference), s) ==> "a" in s
    ensures forall k: nat, p :: !RehydratedIn(ChainGraph("y"), ChainRun("y", reference), k, p)
  {
    hide ChainGraph, WellFormed, Closed, Wanted, Swept, SeedOf, ReferenceOf;
    ChainIsContested("a", reference);
    ChainIsContested("y", reference);
    forall k: nat, p ensures !RehydratedIn(ChainGraph("y"), ChainRun("y", reference), k, p) {
      ChainYNeverRehydrates(reference, k, p);
    }
    ChainSeed("a", reference);
    SweepA();
    ChainInputs("a");
    ChainShape("a");
    WantedBecause(ChainGraph("a"), {"b", "c", "x"}, "x", "a");
  }

  /** A failed consumer of a durable value and of the in-memory value it was made from. */
  const DIAMOND := Graph(map["d" := ["p", "u"], "p" := ["u"], "u" := []],
                         map["d" := [], "p" := [], "u" := []], {"p"}, {})

  function DiamondRun(reference: string): PriorRun {
    PriorRun(0, 0, 0, "", map[
      "d" := PriorNode(Failed, None, None, "run"),
      "p" := PriorNode(Succeeded, Some(reference), None, "run"),
      "u" := PriorNode(Succeeded, None, None, "run")])
  }

  lemma DiamondIsWellFormed()
    ensures WellFormed(DIAMOND) && Upstreams(DIAMOND, "p") == ["u"] && Upstreams(DIAMOND, "u") == []
    ensures Upstreams(DIAMOND, "d") == ["p", "u"] && DIAMOND.inputs.Keys == {"d", "p", "u"}
  {}

  lemma DiamondSeed(reference: string)
    ensures SeedOf(DIAMOND, DiamondRun(reference)) == {"d"}
    ensures ReferenceOf(DIAMOND, DiamondRun(reference), "p") == Some(reference)
    ensures ReferenceOf(DIAMOND, DiamondRun(reference), "u") == None
  {}

  lemma DiamondWants()
    ensures "p" in Wanted(DIAMOND, {"d"})
  {
    assert DIAMOND.inputs["d"][0] == "p";
    WantedBecause(DIAMOND, {"d"}, "d", "p");
  }

  lemma WantedBecause(g: Graph, m: set<string>, c: string, p: string)
    requires c in m && c in g.inputs && p in g.inputs[c] && p !in m
    ensures p in Wanted(g, m)
  {}

  /** It does fail: the durable value is probed and rehydrated, although its in-memory input,
      and so the node itself, must run again. A dangling reference there refuses a plan that
      did not need it. */
  lemma DiamondIsOvertaken(reference: string)
    ensures WellFormed(DIAMOND)
    ensures RehydratedIn(DIAMOND, DiamondRun(reference), 0, "p")
    ensures forall s :: Closed(DIAMOND, DiamondRun(reference), s) ==> "p" in s
  {
    hide Sorted, DIAMOND, SeedOf, ReferenceOf, WellFormed, Wanted, Upstreams;
    var prior := DiamondRun(reference);
    DiamondIsWellFormed();
    DiamondSeed(reference);
    DiamondWants();
    var names := Sorted(DIAMOND.inputs.Keys);
    assert forall n <- names :: n in {"d", "p", "u"};
    SweepIdles(DIAMOND, names, {"d"});
    DiamondNeedsP(prior);
  }

  lemma DiamondNeedsP(prior: PriorRun)
    requires WellFormed(DIAMOND) && SeedOf(DIAMOND, prior) == {"d"} && ReferenceOf(DIAMOND, prior, "u") == None
    ensures forall s :: Closed(DIAMOND, prior, s) ==> "p" in s
  {
    hide SeedOf, ReferenceOf, WellFormed;
    forall s | Closed(DIAMOND, prior, s) ensures "p" in s {
      assert "u" in s by { assert DIAMOND.inputs["d"][1] == "u"; }
      assert Upstreams(DIAMOND, "p")[0] == "u";
    }
  }

  // ---- The whole plan ------------------------------------------------------

  datatype Fingerprint = Fingerprint(structural: nat, policy: nat, algorithm: nat)

  datatype Plan = Plan(seed: set<string>, mustRun: set<string>, satisfied: map<string, string>,
                       rehydrate: map<string, string>, policyDiff: Option<(nat, nat)>)

  function SatisfiedOf(g: Graph, prior: PriorRun, mustRun: set<string>): map<string, string> {
    map n | n in g.inputs && n !in mustRun && DidSucceed(prior, n) :: prior.nodes[n].origin
  }

  method MarkSatisfied(g: Graph, prior: PriorRun, mustRun: set<string>) returns (satisfied: map<string, string>)
    ensures satisfied == SatisfiedOf(g, prior, mustRun)
  {
    hide Sorted;
    var names := Sorted(g.inputs.Keys);
    satisfied := map[];
    for i := 0 to |names|
      invariant forall n :: n in satisfied <==> n in names[..i] && n !in mustRun && DidSucceed(prior, n)
      invariant forall n <- satisfied.Keys :: satisfied[n] == prior.nodes[n].origin
    {
      assert names[..i + 1] == names[..i] + [names[i]];
      if names[i] !in mustRun && DidSucceed(prior, names[i]) {
        satisfied := satisfied[names[i] := prior.nodes[names[i]].origin];
      }
    }
    assert names[..|names|] == names;
  }

  /** The gate's checks, in order. */
  function Gate(prior: PriorRun, f: Fingerprint, tool: string): Option<Refusal> {
    if prior.algorithm != f.algorithm then Some(AlgorithmMismatch)
    else if prior.tool != tool then Some(ToolMismatch)
    else if prior.structural != f.structural then Some(StructuralMismatch)
    else None
  }

  /** `plan_resume`: gate, seed, demand, and what is left satisfied. */
  method PlanResume(g: Graph, f: Fingerprint, prior: PriorRun, tool: string, probe: Probe)
      returns (r: Result<Plan, Refusal>)
    requires WellFormed(g)
    ensures Gate(prior, f, tool).Some? ==> r == Err(Gate(prior, f, tool).value)
    ensures r.Err? && Gate(prior, f, tool).None? ==>
              exists k: nat, p :: RehydratedIn(g, prior, k, p) && Some(r.error) == Trouble(g, prior, probe, p)
    ensures r.Ok? ==>
              && Gate(prior, f, tool).None?
              && r.value.seed == SeedOf(g, prior)
              && IsMustRun(g, prior, r.value.mustRun)
              && r.value.satisfied == SatisfiedOf(g, prior, r.value.mustRun)
              && (forall p :: p in r.value.rehydrate <==> exists k: nat :: RehydratedIn(g, prior, k, p))
              && Sound(g, prior, probe, r.value.rehydrate)
              && r.value.policyDiff == if prior.policy != f.policy then Some((prior.policy, f.policy)) else None
  {
    hide SeedOf, IsMustRun, SatisfiedOf, RehydratedIn, Sound, Trouble;
    if prior.algorithm != f.algorithm { return Err(AlgorithmMismatch); }
    if prior.tool != tool { return Err(ToolMismatch); }
    if prior.structural != f.structural { return Err(StructuralMismatch); }
    var diff := if prior.policy != f.policy then Some((prior.policy, f.policy)) else None;
    var seed := ComputeSeed(g, prior);
    var demand := ResolveDemand(g, prior, seed, probe);
    if demand.Err? { return Err(demand.error); }
    var satisfied := MarkSatisfied(g, prior, demand.value.mustRun);
    r := Ok(Plan(seed, demand.value.mustRun, satisfied, demand.value.rehydrate, diff));
  }

  /** **Every node goes exactly one way**: it runs again, or it is satisfied from the prior run
      under the run its success is recorded to originate in. */
  lemma EveryNodeGoesOneWay(g: Graph, prior: PriorRun, m: set<string>)
    requires WellFormed(g) && IsMustRun(g, prior, m)
    ensures SatisfiedOf(g, prior, m).Keys == g.inputs.Keys - m
    ensures forall n :: n in SatisfiedOf(g, prior, m) ==> SatisfiedOf(g, prior, m)[n] == prior.nodes[n].origin
  {}

  /** Resuming a wholly successful run does nothing, and only then. */
  lemma NothingToDo(g: Graph, prior: PriorRun, m: set<string>)
    requires WellFormed(g) && IsMustRun(g, prior, m)
    ensures m == {} <==> forall n :: n in g.inputs ==> DidSucceed(prior, n) && n !in g.covered
  {
    if forall n :: n in g.inputs ==> DidSucceed(prior, n) && n !in g.covered {
      assert SeedOf(g, prior) == {};
      assert Closed(g, prior, {});
    }
    assert forall n :: n in g.inputs && !(DidSucceed(prior, n) && n !in g.covered) ==> n in SeedOf(g, prior);
  }

  /** A node the prior run itself only carried forward is not a prior success: it runs again. */
  lemma CarriedForwardRunsAgain(g: Graph, prior: PriorRun, m: set<string>, n: string)
    requires WellFormed(g) && IsMustRun(g, prior, m)
    requires n in g.inputs && n in prior.nodes && prior.nodes[n].terminal == SatisfiedFromPrior
    ensures n in m && n !in SatisfiedOf(g, prior, m)
  {
    assert n in SeedOf(g, prior);
  }
}
