/**
 Three histories after which the store answers with an analysis that is not the one
 from scratch, one for each thing that an entry does not remember. The analyzer
 reports all that it is told.
 */
module StaleEntries {
  import opened PathOrder
  import opened Wrappers
  import opened ImportComponents
  import opened GraphAnalysis
  import opened AnalysisStore
  import opened StoreHistory
  import opened GraphCache

  datatype Report = Whole(answers: seq<Answer<Report>>) | Units(docs: map<Path, nat>)

  /** Every graph asks at most one question. */
  function Reporter(isGraph: nat -> bool, imports: nat -> seq<Path>,
      query: nat -> Option<Query>): Analyzer<Report, Report> {
    Analyzer(
      isGraph,
      imports,
      (d: nat) => if query(d).Some? && query(d).value.AskSignature? then {query(d).value.path} else {},
      (d: nat, answers: seq<Answer<Report>>) => if |answers| == 0 then query(d) else None,
      d => 1,
      (d, answers) => Whole(answers),
      a => a,
      (p, docs) => Units(docs))
  }

  lemma ReporterReports(isGraph: nat -> bool, imports: nat -> seq<Path>, query: nat -> Option<Query>)
    ensures Proper(Reporter(isGraph, imports, query)) && Reporting(Reporter(isGraph, imports, query))
  {
  }

  lemma ReporterServes(b: Base<Report, Report>, m: Mem<Report>, stack: set<Path>, p: Path, query: nat -> Option<Query>)
    requires b.x == Reporter(b.x.isGraph, b.x.imports, query) && IsGraph(b.x, b.docs, p) && p !in stack
    requires !(p in m.cache && Hits(m.cache[p], b.docs, m.types)) && query(b.docs[p]).Some?
    ensures var r := ServeReply(b, m, stack + {p}, query(b.docs[p]).value);
      var t := Join(Trace({p}, map[], {}, {}, true), r.trace);
      Serve(b, m, stack, p) == Served(Stored(r.mem, b.docs, stack, p, Whole([r.answer]), t), Whole([r.answer]), t)
  {
    var d := b.docs[p];
    var none: seq<Answer<Report>> := [];
    var r := ServeReply(b, m, stack + {p}, query(d).value);
    assert b.x.next(d, none) == query(d);
    assert none + [r.answer] == [r.answer];
    assert !Asks(b.x, d, [r.answer]);
    assert ServeRun(b, r.mem, stack + {p}, d, [r.answer]) == Served(r.mem, Whole([r.answer]), NO_TRACE);
    assert Join(r.trace, NO_TRACE) == r.trace;
    assert ServeRun(b, m, stack + {p}, d, none) == Served(r.mem, Whole([r.answer]), r.trace);
  }

  lemma AfterStep<A, S>(x: Analyzer<A, S>, steps: seq<Step>, step: Step)
    ensures After(x, steps + [step]) == Apply(x, After(x, steps), step)
  {
    assert (steps + [step])[..|steps|] == steps;
  }

  lemma AllRightStep<A, S>(x: Analyzer<A, S>, steps: seq<Step>, step: Step)
    requires AllRight(x, steps) && (step.Ask? ==> RightAt(x, After(x, steps), step.p))
    ensures AllRight(x, steps + [step])
  {
    assert (steps + [step])[..|steps|] == steps;
    AllRightBefore(x, steps + [step]);
  }

  /** A document more before the first question. */
  lemma PutMore<A, S>(x: Analyzer<A, S>, steps: seq<Step>, docs: map<Path, nat>, empty: Mem<A>, p: Path, d: nat)
    requires AllRight(x, steps) && After(x, steps) == Hist(docs, None, empty, false)
    ensures AllRight(x, steps + [Put(p, d)]) && After(x, steps + [Put(p, d)]) == Hist(docs[p := d], None, empty, false)
  {
    AllRightStep(x, steps, Put(p, d));
    AfterStep(x, steps, Put(p, d));
  }

  /** A stored entry that hits and is not the right one shows. */
  lemma WrongEntryShows<A(!new), S(!new)>(x: Analyzer<A, S>, steps: seq<Step>, p: Path)
    requires Reporting(x) && AllRight(x, steps) && IsGraph(x, After(x, steps).docs, p)
    requires var h := After(x, steps);
      var m := AtHand(h);
      && p in m.cache && Hits(m.cache[p], h.docs, m.types)
      && !RightEntry(Base(x, h.docs, h.resolver), m.cache[p], OriginOf(m, p), {})
    ensures !RightAt(x, After(x, steps), p)
    ensures AnswerOf(x, After(x, steps), p) != FreshAnswer(x, WorldOf(After(x, steps)), p)
  {
    FreshAnswerIffRight(x, steps, p);
  }

  function Referred(p: Path, k: Path, t: Trace): Trace {
    Trace({p, k} + t.docs, t.functions, {k} + t.asked, t.policies, t.right)
  }

  lemma ReferredJoin(p: Path, k: Path, t: Trace)
    ensures Join(Trace({p}, map[], {}, {}, true), Join(Trace({k}, map[], {k}, {}, true), t)) == Referred(p, k, t)
  {
    assert {p} + ({k} + t.docs) == {p, k} + t.docs;
    assert map[] + (map[] + t.functions) == t.functions && {} + ({} + t.policies) == t.policies;
    assert {} + ({k} + t.asked) == {k} + t.asked;
  }

  /** What a graph that refers to k is served with, if nothing is stored for it yet. */
  lemma ReferenceServed(b: Base<Report, Report>, m: Mem<Report>, stack: set<Path>, p: Path, k: Path,
      query: nat -> Option<Query>)
    requires b.x == Reporter(b.x.isGraph, b.x.imports, query) && IsGraph(b.x, b.docs, p) && p !in stack && p !in m.cache
    requires query(b.docs[p]) == Some(AskSignature(k)) && IsGraph(b.x, b.docs, k) && k !in stack + {p}
    ensures var s := Serve(b, m, stack + {p}, k);
      var t, answer := Referred(p, k, s.trace), Whole([Found(s.analysis)]);
      Serve(b, m, stack, p) == Served(Stored(s.mem, b.docs, stack, p, answer, t), answer, t)
  {
    ReporterServes(b, m, stack, p, query);
    ReferredJoin(p, k, Serve(b, m, stack + {p}, k).trace);
  }

  /** The first question to an empty store. */
  lemma FirstAsked<A, S>(x: Analyzer<A, S>, steps: seq<Step>, docs: map<Path, nat>, empty: Mem<A>, p: Path)
    requires AllRight(x, steps) && empty == Mem(map[], map[], map[]) &&
      After(x, steps) == Hist(docs, None, empty, false)
    requires IsGraph(x, docs, p) && Serve(Base(x, docs, None), empty, {}, p).trace.right
    ensures AllRight(x, steps + [Ask(p)])
    ensures After(x, steps + [Ask(p)]) == Hist(docs, None, Serve(Base(x, docs, None), empty, {}, p).mem, true)
  {
    assert AtHand(After(x, steps)) == empty;
    AllRightStep(x, steps, Ask(p));
    AfterStep(x, steps, Ask(p));
  }

  // ---------------------------------------------------------------- a cycle of references

  function AllGraphs(d: nat): bool { true }

  function NoImports(d: nat): seq<Path> { [] }

  /** Documents 0, 1 and 2 refer to b, c and a. */
  function CycleQuery(d: nat): Option<Query> {
    if d == 0 then Some(AskSignature("b")) else if d == 1 then Some(AskSignature("c")) else Some(AskSignature("a"))
  }

  function Referring(): Analyzer<Report, Report> {
    Reporter(AllGraphs, NoImports, CycleQuery)
  }

  const CYCLE: seq<Step> := [Put("a", 0), Put("b", 1), Put("c", 2)]

  const CYCLE_DOCS: map<Path, nat> := map["a" := 0, "b" := 1, "c" := 2]

  lemma CyclePut()
    ensures After(Referring(), CYCLE) == Hist(CYCLE_DOCS, None, Mem(map[], map[], map[]), false)
    ensures AllRight(Referring(), CYCLE)
  {
    var x, empty := Referring(), Mem(map[], map[], map[]);
    PutMore(x, [], map[], empty, "a", 0);
    PutMore(x, [] + [Put("a", 0)], map["a" := 0], empty, "b", 1);
    PutMore(x, [] + [Put("a", 0)] + [Put("b", 1)], map["a" := 0, "b" := 1], empty, "c", 2);
    assert [] + [Put("a", 0)] + [Put("b", 1)] + [Put("c", 2)] == CYCLE;
  }

  /** Analysing a, and with it b and c, stores for c an analysis that met a. */
  lemma CycleServed(b: Base<Report, Report>, m: Mem<Report>)
    requires b == Base(Referring(), CYCLE_DOCS, None) && m == Mem(map[], map[], map[])
    ensures var s := Serve(b, m, {}, "a");
      s.trace.right && s.mem.types == map[] && "c" in s.mem.cache
      && s.mem.cache["c"] == Entry(Stamps(CYCLE_DOCS, {"c", "a"}), map[], Whole([Recursive]))
      && OriginOf(s.mem, "c") == Origin(CYCLE_DOCS, {"a", "b"}, {"a"}, {}, true)
  {
    ReporterServes(b, m, {"a", "b"}, "c", CycleQuery);
    assert {"c"} + {"a"} == {"c", "a"};
    assert {"a"} + {"b"} == {"a", "b"};
    ReferenceServed(b, m, {"a"}, "b", "c", CycleQuery);
    assert {} + {"a"} == {"a"};
    ReferenceServed(b, m, {}, "a", "b", CycleQuery);
  }

  lemma CycleAsked()
    ensures var x, steps := Referring(), CYCLE + [Ask("a")];
      var h := After(x, steps);
      && AllRight(x, steps) && h.docs == CYCLE_DOCS && h.resolver == None && h.current
      && h.mem.types == map[] && "c" in h.mem.cache
      && h.mem.cache["c"] == Entry(Stamps(CYCLE_DOCS, {"c", "a"}), map[], Whole([Recursive]))
      && OriginOf(h.mem, "c") == Origin(CYCLE_DOCS, {"a", "b"}, {"a"}, {}, true)
  {
    var x := Referring();
    CyclePut();
    CycleServed(Base(x, CYCLE_DOCS, None), Mem(map[], map[], map[]));
    FirstAsked(x, CYCLE, CYCLE_DOCS, Mem(map[], map[], map[]), "a");
  }

  /** Asked for a first and then for c, the store answers for c with what was found on the way. */
  lemma StaleAfterCycle()
    ensures var x, steps := Referring(), CYCLE + [Ask("a")];
      && AllRight(x, steps) && !RightAt(x, After(x, steps), "c")
      && AnswerOf(x, After(x, steps), "c") != FreshAnswer(x, WorldOf(After(x, steps)), "c")
  {
    CycleAsked();
    var h := After(Referring(), CYCLE + [Ask("a")]);
    assert "a" in OriginOf(h.mem, "c").asked && "a" in OriginOf(h.mem, "c").stack;
    ReporterReports(AllGraphs, NoImports, CycleQuery);
    WrongEntryShows(Referring(), CYCLE + [Ask("a")], "c");
  }

  // ---------------------------------------------------------------- a new importer

  function FirstIsGraph(d: nat): bool { d == 0 }

  /** Policy 2 imports p. */
  function Imports(d: nat): seq<Path> { if d == 2 then ["p"] else [] }

  function AskP(d: nat): Option<Query> { Some(AskSignature("p")) }

  function Using(): Analyzer<Report, Report> {
    Reporter(FirstIsGraph, Imports, AskP)
  }

  const IMPORT: seq<Step> := [Put("p", 1), Put("g", 0)]

  const IMPORT_DOCS: map<Path, nat> := map["p" := 1, "g" := 0]

  lemma ImportPut()
    ensures After(Using(), IMPORT) == Hist(IMPORT_DOCS, None, Mem(map[], map[], map[]), false)
    ensures AllRight(Using(), IMPORT)
  {
    var x, empty := Using(), Mem(map[], map[], map[]);
    PutMore(x, [], map[], empty, "p", 1);
    PutMore(x, [] + [Put("p", 1)], map["p" := 1], empty, "g", 0);
    assert [] + [Put("p", 1)] + [Put("g", 0)] == IMPORT;
  }

  lemma ImportMembers()
    ensures Members(Using(), IMPORT_DOCS, "p") == {"p"}
    ensures Members(Using(), IMPORT_DOCS["q" := 2], "p") == {"p", "q"}
  {
    NotPinnedByMembers("p", "q");
    assert ParsedIn(Using(), IMPORT_DOCS) == map["p" := []];
    assert ParsedIn(Using(), IMPORT_DOCS["q" := 2]) == map["p" := [], "q" := ["p"]];
  }

  lemma ImportServed(b: Base<Report, Report>, m: Mem<Report>)
    requires b == Base(Using(), IMPORT_DOCS, None) && m == Mem(map[], map[], map[])
    ensures var s := Serve(b, m, {}, "g");
      s.trace.right && s.mem.types == map[] && "g" in s.mem.cache
      && s.mem.cache["g"].docs == Stamps(IMPORT_DOCS, {"g", "p"}) && s.mem.cache["g"].functions == map[]
      && OriginOf(s.mem, "g") == Origin(IMPORT_DOCS, {}, {}, {"p"}, true)
  {
    ImportMembers();
    ReporterServes(b, m, {}, "g", AskP);
    assert {"g"} + ({"p"} + {"p"}) == {"g", "p"};
  }

  lemma ImportAsked()
    ensures var x, steps := Using(), IMPORT + [Ask("g")];
      var h := After(x, steps);
      && AllRight(x, steps) && h.docs == IMPORT_DOCS && h.resolver == None
      && h.mem.types == map[] && "g" in h.mem.cache
      && h.mem.cache["g"].docs == Stamps(IMPORT_DOCS, {"g", "p"}) && h.mem.cache["g"].functions == map[]
      && OriginOf(h.mem, "g") == Origin(IMPORT_DOCS, {}, {}, {"p"}, true)
  {
    var x := Using();
    ImportPut();
    ImportServed(Base(x, IMPORT_DOCS, None), Mem(map[], map[], map[]));
    FirstAsked(x, IMPORT, IMPORT_DOCS, Mem(map[], map[], map[]), "g");
  }

  lemma ImportLater()
    ensures var x, steps := Using(), IMPORT + [Ask("g")] + [Put("q", 2)];
      var h := After(x, steps);
      && AllRight(x, steps) && h.docs == IMPORT_DOCS["q" := 2] && h.resolver == None
      && AtHand(h).types == map[] && "g" in AtHand(h).cache
      && AtHand(h).cache["g"].docs == Stamps(IMPORT_DOCS, {"g", "p"}) && AtHand(h).cache["g"].functions == map[]
      && OriginOf(AtHand(h), "g") == Origin(IMPORT_DOCS, {}, {}, {"p"}, true)
  {
    var x, asked := Using(), IMPORT + [Ask("g")];
    ImportAsked();
    AllRightStep(x, asked, Put("q", 2));
    AfterStep(x, asked, Put("q", 2));
  }

  /** A graph refers to policy p; a policy that imports p comes later; the store answers as if it had not. */
  lemma StaleAfterImport()
    ensures var x, steps := Using(), IMPORT + [Ask("g")] + [Put("q", 2)];
      && AllRight(x, steps) && !RightAt(x, After(x, steps), "g")
      && AnswerOf(x, After(x, steps), "g") != FreshAnswer(x, WorldOf(After(x, steps)), "g")
  {
    ImportLater();
    ImportMembers();
    var m := AtHand(After(Using(), IMPORT + [Ask("g")] + [Put("q", 2)]));
    assert "p" in OriginOf(m, "g").policies;
    assert {"p"} != {"p", "q"} by {
      assert "q" in {"p", "q"} && "q" !in {"p"};
    }
    ReporterReports(FirstIsGraph, Imports, AskP);
    WrongEntryShows(Using(), IMPORT + [Ask("g")] + [Put("q", 2)], "g");
  }

  // ---------------------------------------------------------------- a late resolver

  function AskKey(d: nat): Option<Query> { Some(AskFunction((0, 0))) }

  function Calling(): Analyzer<Report, Report> {
    Reporter(AllGraphs, NoImports, AskKey)
  }

  lemma CallAsked()
    ensures var x, steps := Calling(), [Put("g", 0)] + [Ask("g")];
      var h := After(x, steps);
      && AllRight(x, steps) && h.docs == map["g" := 0] && h.mem.types == map[] && "g" in h.mem.cache
      && h.mem.cache["g"] == Entry(Stamps(h.docs, {"g"}), map[(0, 0) := None], Whole([Function(None)]))
  {
    var x, put := Calling(), [Put("g", 0)];
    AfterStep(x, [], Put("g", 0));
    assert [] + [Put("g", 0)] == put;
    ReporterServes(Base(x, map["g" := 0], None), Mem(map[], map[], map[]), {}, "g", AskKey);
    assert {"g"} + {} == {"g"};
    FirstAsked(x, put, map["g" := 0], Mem(map[], map[], map[]), "g");
  }

  /**
   A function is unknown when its caller is analysed; a resolver is set later; the store
   answers as if it had not been.
   */
  lemma StaleAfterResolver(resolver: FunctionKey -> Resolved)
    ensures var x, steps := Calling(), [Put("g", 0)] + [Ask("g")] + [SetResolver(Some(resolver))];
      && AllRight(x, steps) && !RightAt(x, After(x, steps), "g")
      && AnswerOf(x, After(x, steps), "g") != FreshAnswer(x, WorldOf(After(x, steps)), "g")
  {
    var x, asked := Calling(), [Put("g", 0)] + [Ask("g")];
    CallAsked();
    AllRightStep(x, asked, SetResolver(Some(resolver)));
    AfterStep(x, asked, SetResolver(Some(resolver)));
    var h := After(x, asked + [SetResolver(Some(resolver))]);
    assert (0, 0) in AtHand(h).cache["g"].functions;
    ReporterReports(AllGraphs, NoImports, AskKey);
    WrongEntryShows(x, asked + [SetResolver(Some(resolver))], "g");
  }

  // ---------------------------------------------------------------- run through the database

  /** The answer of the database to a question after a history. */
  method AnswerAfter<A(!new), S(!new)>(x: Analyzer<A, S>, steps: seq<Step>, p: Path) returns (answer: Option<A>)
    ensures answer == AnswerOf(x, After(x, steps), p)
  {
    var answers := Replay(x, steps + [Ask(p)]);
    assert (steps + [Ask(p)])[..|steps|] == steps && (steps + [Ask(p)])[|steps|] == Ask(p);
    answer := answers[|steps|];
  }

  /**
   The database gives answers that are not from scratch: in a cycle of references, after
   a new importer, after a late resolver.
   */
  method StaleAnswers(resolver: FunctionKey -> Resolved)
    returns (c: Option<Report>, g: Option<Report>, h: Option<Report>)
    ensures c != FreshAnswer(Referring(), WorldOf(After(Referring(), CYCLE + [Ask("a")])), "c")
    ensures g != FreshAnswer(Using(), WorldOf(After(Using(), IMPORT + [Ask("g")] + [Put("q", 2)])), "g")
    ensures h !=
      FreshAnswer(Calling(), WorldOf(After(Calling(), [Put("g", 0)] + [Ask("g")] + [SetResolver(Some(resolver))])), "g")
  {
    c := AnswerAfter(Referring(), CYCLE + [Ask("a")], "c");
    StaleAfterCycle();
    g := AnswerAfter(Using(), IMPORT + [Ask("g")] + [Put("q", 2)], "g");
    StaleAfterImport();
    h := AnswerAfter(Calling(), [Put("g", 0)] + [Ask("g")] + [SetResolver(Some(resolver))], "g");
    StaleAfterResolver(resolver);
  }
}
