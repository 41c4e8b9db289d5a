/**
 The store of graph analyses as a value, and when what it serves is what an
 analysis from scratch would give. An entry remembers stamps of the documents and
 states of the functions that were read; it does not remember which graphs were
 being analysed, nor which policies were connected, and a function that was unknown
 counts as unchanged although a resolver could resolve it by now.
 */
module AnalysisStore {
  import opened PathOrder
  import opened Wrappers
  import opened ImportComponents
  import opened GraphAnalysis

  datatype Entry<+A> = Entry(docs: map<Path, Option<nat>>, functions: map<FunctionKey, Option<Resolved>>, analysis: A)

  function StateOf(types: map<FunctionKey, Resolved>, k: FunctionKey): Option<Resolved> {
    if k in types then Some(types[k]) else None
  }

  function OutcomeOf(types: map<FunctionKey, Resolved>, resolver: Option<FunctionKey -> Resolved>,
      k: FunctionKey): Option<Resolved> {
    if k in types then Some(types[k]) else if resolver.Some? then Some(resolver.value(k)) else None
  }

  /** All documents and functions of the entry are as they were. */
  predicate Hits<A>(e: Entry<A>, docs: map<Path, nat>, types: map<FunctionKey, Resolved>) {
    && (forall p :: p in e.docs ==> e.docs[p] == DocAt(docs, p))
    && (forall k :: k in e.functions ==> e.functions[k] == StateOf(types, k))
  }

  function Stamps(docs: map<Path, nat>, paths: set<Path>): map<Path, Option<nat>> {
    map p | p in paths :: DocAt(docs, p)
  }

  ghost function Outcomes(w: World, keys: set<FunctionKey>): map<FunctionKey, Option<Resolved>> {
    map k | k in keys :: w.outcome(k)
  }

  // ---------------------------------------------------------------- what the store does not remember

  /**
   How an entry came about: the documents at the time, the graphs that were being
   analysed, the graphs and policies that were asked for, and whether all entries
   used on the way were the right ones.
   */
  datatype Origin = Origin(docs: map<Path, nat>, stack: set<Path>, asked: set<Path>, policies: set<Path>, sound: bool)

  /** What an analysis changes. */
  datatype Mem<+A> = Mem(types: map<FunctionKey, Resolved>, cache: map<Path, Entry<A>>, origins: map<Path, Origin>)

  function OriginOf<A>(m: Mem<A>, p: Path): Origin {
    if p in m.origins then m.origins[p] else Origin(map[], {}, {}, {}, false)
  }

  /** What an analysis leaves alone. */
  datatype Base<!A, !S> = Base(x: Analyzer<A, S>, docs: map<Path, nat>, resolver: Option<FunctionKey -> Resolved>)

  /** No resolver could resolve now what was unknown when the entry was made. */
  predicate NothingUnknown<A>(e: Entry<A>, resolver: Option<FunctionKey -> Resolved>) {
    resolver.Some? ==> forall k :: k in e.functions ==> e.functions[k].Some?
  }

  /**
   The entry is the right one for an analysis among the given graphs: it came about
   rightly, of the graphs that it asked for the same ones are being analysed, the
   policies that it asked for are connected to the same ones, and nothing has become
   resolvable.
   */
  ghost predicate RightEntry<A, S>(b: Base<A, S>, e: Entry<A>, o: Origin, stack: set<Path>) {
    && o.sound
    && (forall k :: k in o.asked ==> (k in stack <==> k in o.stack))
    && (forall k :: k in o.policies ==> Members(b.x, b.docs, k) == Members(b.x, o.docs, k))
    && NothingUnknown(e, b.resolver)
  }

  // ---------------------------------------------------------------- analysis with the store

  /** What was read on the way, and whether all entries used were the right ones. */
  datatype Trace = Trace(
    docs: set<Path>,
    functions: map<FunctionKey, Option<Resolved>>,
    asked: set<Path>,
    policies: set<Path>,
    right: bool
  )

  const NO_TRACE: Trace := Trace({}, map[], {}, {}, true)

  function Join(a: Trace, b: Trace): Trace {
    Trace(a.docs + b.docs, a.functions + b.functions, a.asked + b.asked, a.policies + b.policies, a.right && b.right)
  }

  lemma JoinAssociative(a: Trace, b: Trace, c: Trace)
    ensures Join(Join(a, b), c) == Join(a, Join(b, c))
  {
    assert a.docs + b.docs + c.docs == a.docs + (b.docs + c.docs);
    assert a.functions + b.functions + c.functions == a.functions + (b.functions + c.functions);
    assert a.asked + b.asked + c.asked == a.asked + (b.asked + c.asked);
    assert a.policies + b.policies + c.policies == a.policies + (b.policies + c.policies);
  }

  datatype Served<+A> = Served(mem: Mem<A>, analysis: A, trace: Trace)

  datatype Answered<+A, +S> = Answered(mem: Mem<A>, answer: Answer<S>, trace: Trace)

  function Learned<A>(m: Mem<A>, resolver: Option<FunctionKey -> Resolved>, k: FunctionKey): Mem<A> {
    if k !in m.types && resolver.Some? then m.(types := m.types[k := resolver.value(k)]) else m
  }

  /** What is kept after an analysis. */
  function Stored<A>(m: Mem<A>, docs: map<Path, nat>, stack: set<Path>, p: Path, analysis: A, t: Trace): Mem<A> {
    Mem(m.types,
        m.cache[p := Entry(Stamps(docs, t.docs), t.functions, analysis)],
        m.origins[p := Origin(docs, stack, t.asked, t.policies, t.right)])
  }

  /** The analysis of a graph: the stored one if it hits, a new one otherwise, which is stored. */
  ghost function Serve<A, S>(b: Base<A, S>, m: Mem<A>, stack: set<Path>, p: Path): Served<A>
    requires IsGraph(b.x, b.docs, p) && p !in stack
    decreases Room(b.docs, stack), 0, 0
  {
    if p in m.cache && Hits(m.cache[p], b.docs, m.types) then
      var e, o := m.cache[p], OriginOf(m, p);
      Served(m, e.analysis, Trace(e.docs.Keys, e.functions, o.asked, o.policies, RightEntry(b, e, o, stack)))
    else
      LessRoom(b.docs, stack, p);
      var r := ServeRun(b, m, stack + {p}, b.docs[p], []);
      var t := Join(Trace({p}, map[], {}, {}, true), r.trace);
      Served(Stored(r.mem, b.docs, stack, p, r.analysis, t), r.analysis, t)
  }

  ghost function ServeRun<A, S>(b: Base<A, S>, m: Mem<A>, stack: set<Path>, d: nat, answers: seq<Answer<S>>): Served<A>
    decreases Room(b.docs, stack), 2, b.x.limit(d) - |answers|
  {
    if !Asks(b.x, d, answers) then Served(m, b.x.finish(d, answers), NO_TRACE)
    else
      var r := ServeReply(b, m, stack, b.x.next(d, answers).value);
      var rest := ServeRun(b, r.mem, stack, d, answers + [r.answer]);
      Served(rest.mem, rest.analysis, Join(r.trace, rest.trace))
  }

  ghost function ServeReply<A, S>(b: Base<A, S>, m: Mem<A>, stack: set<Path>, q: Query): Answered<A, S>
    decreases Room(b.docs, stack), 1, 0
  {
    match q
    case AskDocument(p) => Answered(m, Document(DocAt(b.docs, p)), Trace({p}, map[], {}, {}, true))
    case AskFunction(k) =>
      var m' := Learned(m, b.resolver, k);
      Answered(m', Function(StateOf(m'.types, k)), Trace({}, map[k := StateOf(m'.types, k)], {}, {}, true))
    case AskSignature(p) =>
      if p !in b.docs then Answered(m, Missing, Trace({p}, map[], {}, {}, true))
      else if !b.x.isGraph(b.docs[p]) then
        var members := Members(b.x, b.docs, p);
        Answered(m, Found(b.x.policySignature(p, Restrict(b.docs, members))),
                 Trace({p} + members, map[], {}, {p}, true))
      else if p in stack then Answered(m, Recursive, Trace({p}, map[], {p}, {}, true))
      else
        var s := Serve(b, m, stack, p);
        Answered(s.mem, Found(b.x.signature(s.analysis)), Join(Trace({p}, map[], {p}, {}, true), s.trace))
  }

  // ---------------------------------------------------------------- right entries give the analysis from scratch

  /** The world that the documents, the known function types and the resolver make up. */
  ghost predicate IsWorld<A, S>(b: Base<A, S>, types: map<FunctionKey, Resolved>, w: World) {
    w.docs == b.docs && forall k :: w.outcome(k) == OutcomeOf(types, b.resolver, k)
  }

  /** What the entry has read is as it is in the world. */
  ghost predicate Matches<A>(e: Entry<A>, w: World) {
    && (forall p :: p in e.docs ==> e.docs[p] == DocAt(w.docs, p))
    && (forall k :: k in e.functions ==> e.functions[k] == w.outcome(k))
  }

  /**
   A hit means that all that was read is as it was, exactly if no resolver could resolve
   now what was unknown then.
   */
  lemma HitMatches<A(!new), S(!new)>(b: Base<A, S>, types: map<FunctionKey, Resolved>, w: World, e: Entry<A>)
    requires IsWorld(b, types, w) && Hits(e, b.docs, types)
    ensures Matches(e, w) <==> NothingUnknown(e, b.resolver)
  {
    if b.resolver.Some? && Matches(e, w) {
      forall k | k in e.functions
        ensures e.functions[k].Some?
      {
        assert w.outcome(k) == OutcomeOf(types, b.resolver, k);
      }
    }
  }

  ghost function Known(functions: map<FunctionKey, Option<Resolved>>): FunctionKey -> Option<Resolved> {
    k => if k in functions then functions[k] else None
  }

  /** The entry holds what an analysis from scratch gave at the time, and all that it read. */
  ghost predicate Exact<A, S>(x: Analyzer<A, S>, p: Path, e: Entry<A>, o: Origin) {
    var w := World(o.docs, Known(e.functions));
    && IsGraph(x, w.docs, p) && p !in o.stack
    && var r := Fresh(x, w, o.stack, p);
    && e.analysis == r.analysis && e.docs == Stamps(o.docs, r.read.docs)
    && r.read == Reads(e.docs.Keys, e.functions.Keys, o.asked, o.policies)
  }

  ghost predicate MemOk<A, S>(x: Analyzer<A, S>, m: Mem<A>) {
    forall p :: p in m.cache && OriginOf(m, p).sound ==> Exact(x, p, m.cache[p], OriginOf(m, p))
  }

  /** A right entry that hits is what an analysis from scratch gives now. */
  lemma RightEntryIsFresh<A, S>(b: Base<A, S>, types: map<FunctionKey, Resolved>, w: World, stack: set<Path>, p: Path,
      e: Entry<A>, o: Origin)
    requires IsWorld(b, types, w) && IsGraph(b.x, b.docs, p) && p !in stack
    requires Exact(b.x, p, e, o) && Hits(e, b.docs, types) && RightEntry(b, e, o, stack)
    ensures Fresh(b.x, w, stack, p) == Outcome(e.analysis, Reads(e.docs.Keys, e.functions.Keys, o.asked, o.policies))
    ensures e.functions == Outcomes(w, e.functions.Keys)
  {
    var past := World(o.docs, Known(e.functions));
    var r := Fresh(b.x, past, o.stack, p);
    StampsSame(e, o.docs, b.docs, types, r.read.docs);
    forall k | k in e.functions
      ensures e.functions[k] == past.outcome(k) == w.outcome(k)
    {
      assert e.functions[k] == StateOf(types, k);
    }
    FreshPinned(b.x, past, o.stack, w, stack, p);
  }

  lemma StampsSame<A>(e: Entry<A>, docs: map<Path, nat>, docs': map<Path, nat>, types: map<FunctionKey, Resolved>,
      paths: set<Path>)
    requires e.docs == Stamps(docs, paths) && Hits(e, docs', types)
    ensures SameDocs(docs, docs', paths)
  {
    forall p | p in paths
      ensures DocAt(docs, p) == DocAt(docs', p)
    {
      assert p in e.docs && e.docs[p] == DocAt(docs, p);
    }
  }

  /** For a reporting analyzer an entry that came about rightly and hits is fresh only if it is the right one. */
  lemma FreshEntryIsRight<A(!new), S(!new)>(b: Base<A, S>, types: map<FunctionKey, Resolved>, w: World,
      stack: set<Path>, p: Path,
      e: Entry<A>, o: Origin)
    requires Reporting(b.x) && IsWorld(b, types, w) && IsGraph(b.x, b.docs, p) && p !in stack
    requires o.sound && Exact(b.x, p, e, o) && Hits(e, b.docs, types)
    requires Fresh(b.x, w, stack, p).analysis == e.analysis
    ensures RightEntry(b, e, o, stack)
  {
    var past := World(o.docs, Known(e.functions));
    var r := Fresh(b.x, past, o.stack, p);
    StampsSame(e, o.docs, b.docs, types, r.read.docs);
    FreshTells(b.x, past, o.stack, w, stack, p);
    forall k | k in e.functions && b.resolver.Some?
      ensures e.functions[k].Some?
    {
      assert k in r.read.functions && past.outcome(k) == w.outcome(k) == OutcomeOf(types, b.resolver, k);
    }
  }

  // ---------------------------------------------------------------- what is served when all entries used are right

  /** The trace holds exactly what was read. */
  ghost predicate Mirrors(w: World, t: Trace, r: Reads) {
    t.docs == r.docs && t.functions == Outcomes(w, r.functions) && t.asked == r.asked && t.policies == r.policies
  }

  lemma MirrorsJoin(w: World, a: Trace, b: Trace, ra: Reads, rb: Reads)
    requires Mirrors(w, a, ra) && Mirrors(w, b, rb)
    ensures Mirrors(w, Join(a, b), Both(ra, rb))
  {
    assert Outcomes(w, ra.functions) + Outcomes(w, rb.functions) == Outcomes(w, ra.functions + rb.functions);
  }

  /** An analysis that used only right entries is stored rightly. */
  lemma StoredOk<A, S>(b: Base<A, S>, m: Mem<A>, w: World, stack: set<Path>, p: Path, analysis: A, t: Trace)
    requires MemOk(b.x, m) && w.docs == b.docs && IsGraph(b.x, b.docs, p) && p !in stack
    requires t.right ==> analysis == Fresh(b.x, w, stack, p).analysis && Mirrors(w, t, Fresh(b.x, w, stack, p).read)
    ensures MemOk(b.x, Stored(m, b.docs, stack, p, analysis, t))
  {
    var m' := Stored(m, b.docs, stack, p, analysis, t);
    if t.right {
      var e := Entry(Stamps(b.docs, t.docs), t.functions, analysis);
      assert e.docs.Keys == t.docs;
      FreshPinned(b.x, w, stack, World(b.docs, Known(e.functions)), stack, p);
      assert Exact(b.x, p, e, OriginOf(m', p));
    }
    forall q | q in m'.cache && q != p
      ensures m'.cache[q] == m.cache[q] && OriginOf(m', q) == OriginOf(m, q)
    {
    }
  }

  lemma LearningKeepsWorld<A, S>(b: Base<A, S>, m: Mem<A>, w: World, k: FunctionKey)
    requires IsWorld(b, m.types, w)
    ensures IsWorld(b, Learned(m, b.resolver, k).types, w) &&
      StateOf(Learned(m, b.resolver, k).types, k) == w.outcome(k)
  {
    var types' := Learned(m, b.resolver, k).types;
    forall j
      ensures w.outcome(j) == OutcomeOf(types', b.resolver, j)
    {
      assert w.outcome(j) == OutcomeOf(m.types, b.resolver, j);
    }
  }

  /** What is served is the analysis from scratch, if all entries used are the right ones. */
  lemma {:induction false} ServeFresh<A, S>(b: Base<A, S>, m: Mem<A>, w: World, stack: set<Path>, p: Path)
    requires MemOk(b.x, m) && IsWorld(b, m.types, w) && IsGraph(b.x, b.docs, p) && p !in stack
    ensures MemOk(b.x, Serve(b, m, stack, p).mem) && IsWorld(b, Serve(b, m, stack, p).mem.types, w)
    ensures Serve(b, m, stack, p).trace.right ==>
      && Serve(b, m, stack, p).analysis == Fresh(b.x, w, stack, p).analysis
      && Mirrors(w, Serve(b, m, stack, p).trace, Fresh(b.x, w, stack, p).read)
    decreases Room(b.docs, stack), 0, 0
  {
    if p in m.cache && Hits(m.cache[p], b.docs, m.types) {
      var e, o := m.cache[p], OriginOf(m, p);
      if RightEntry(b, e, o, stack) {
        RightEntryIsFresh(b, m.types, w, stack, p, e, o);
      }
    } else {
      LessRoom(b.docs, stack, p);
      ServeRunFresh(b, m, w, stack + {p}, b.docs[p], []);
      var r, f := ServeRun(b, m, stack + {p}, b.docs[p], []), Run(b.x, w, stack + {p}, b.docs[p], []);
      var t := Join(Trace({p}, map[], {}, {}, true), r.trace);
      if t.right {
        MirrorsJoin(w, Trace({p}, map[], {}, {}, true), r.trace, Reads({p}, {}, {}, {}), f.read);
      }
      StoredOk(b, r.mem, w, stack, p, r.analysis, t);
    }
  }

  lemma {:induction false} ServeRunFresh<A, S>(b: Base<A, S>, m: Mem<A>, w: World, stack: set<Path>, d: nat,
      answers: seq<Answer<S>>)
    requires MemOk(b.x, m) && IsWorld(b, m.types, w)
    ensures MemOk(b.x, ServeRun(b, m, stack, d, answers).mem) &&
      IsWorld(b, ServeRun(b, m, stack, d, answers).mem.types, w)
    ensures ServeRun(b, m, stack, d, answers).trace.right ==>
      && ServeRun(b, m, stack, d, answers).analysis == Run(b.x, w, stack, d, answers).analysis
      && Mirrors(w, ServeRun(b, m, stack, d, answers).trace, Run(b.x, w, stack, d, answers).read)
    decreases Room(b.docs, stack), 2, b.x.limit(d) - |answers|
  {
    if Asks(b.x, d, answers) {
      var q := b.x.next(d, answers).value;
      var r, reply := ServeReply(b, m, stack, q), ReplyTo(b.x, w, stack, q);
      ServeReplyFresh(b, m, w, stack, q);
      ServeRunFresh(b, r.mem, w, stack, d, answers + [r.answer]);
      var rest := ServeRun(b, r.mem, stack, d, answers + [r.answer]);
      if r.trace.right && rest.trace.right {
        MirrorsJoin(w, r.trace, rest.trace, reply.read, Run(b.x, w, stack, d, answers + [reply.answer]).read);
      }
    }
  }

  lemma {:induction false} ServeReplyFresh<A, S>(b: Base<A, S>, m: Mem<A>, w: World, stack: set<Path>, q: Query)
    requires MemOk(b.x, m) && IsWorld(b, m.types, w)
    ensures MemOk(b.x, ServeReply(b, m, stack, q).mem) && IsWorld(b, ServeReply(b, m, stack, q).mem.types, w)
    ensures ServeReply(b, m, stack, q).trace.right ==>
      && ServeReply(b, m, stack, q).answer == ReplyTo(b.x, w, stack, q).answer
      && Mirrors(w, ServeReply(b, m, stack, q).trace, ReplyTo(b.x, w, stack, q).read)
    decreases Room(b.docs, stack), 1, 0
  {
    assert Outcomes(w, {}) == map[];
    match q
    case AskDocument(p) =>
    case AskFunction(k) =>
      LearningKeepsWorld(b, m, w, k);
      assert Outcomes(w, {k}) == map[k := w.outcome(k)];
    case AskSignature(p) =>
      if IsGraph(b.x, b.docs, p) && p !in stack {
        ServeFresh(b, m, w, stack, p);
        var s := Serve(b, m, stack, p);
        if s.trace.right {
          MirrorsJoin(w, Trace({p}, map[], {p}, {}, true), s.trace, Reads({p}, {}, {p}, {}),
                      Fresh(b.x, w, stack, p).read);
        }
      }
  }

  // ---------------------------------------------------------------- and only then

  ghost predicate AllSound<A>(m: Mem<A>) {
    forall p :: p in m.cache ==> OriginOf(m, p).sound
  }

  lemma StoredSound<A>(m: Mem<A>, docs: map<Path, nat>, stack: set<Path>, p: Path, analysis: A, t: Trace)
    requires AllSound(m) && t.right
    ensures AllSound(Stored(m, docs, stack, p, analysis, t))
  {
    forall q | q != p
      ensures OriginOf(Stored(m, docs, stack, p, analysis, t), q) == OriginOf(m, q)
    {
    }
  }

  lemma {:induction false} ServeKeepsSound<A, S>(b: Base<A, S>, m: Mem<A>, stack: set<Path>, p: Path)
    requires AllSound(m) && IsGraph(b.x, b.docs, p) && p !in stack && Serve(b, m, stack, p).trace.right
    ensures AllSound(Serve(b, m, stack, p).mem)
    decreases Room(b.docs, stack), 0, 0
  {
    if !(p in m.cache && Hits(m.cache[p], b.docs, m.types)) {
      LessRoom(b.docs, stack, p);
      ServeRunKeepsSound(b, m, stack + {p}, b.docs[p], []);
      var r := ServeRun(b, m, stack + {p}, b.docs[p], []);
      StoredSound(r.mem, b.docs, stack, p, r.analysis, Join(Trace({p}, map[], {}, {}, true), r.trace));
    }
  }

  lemma {:induction false} ServeRunKeepsSound<A, S>(b: Base<A, S>, m: Mem<A>, stack: set<Path>, d: nat,
      answers: seq<Answer<S>>)
    requires AllSound(m) && ServeRun(b, m, stack, d, answers).trace.right
    ensures AllSound(ServeRun(b, m, stack, d, answers).mem)
    decreases Room(b.docs, stack), 2, b.x.limit(d) - |answers|
  {
    if Asks(b.x, d, answers) {
      var q := b.x.next(d, answers).value;
      var r := ServeReply(b, m, stack, q);
      ServeReplyKeepsSound(b, m, stack, q);
      ServeRunKeepsSound(b, r.mem, stack, d, answers + [r.answer]);
    }
  }

  lemma {:induction false} ServeReplyKeepsSound<A, S>(b: Base<A, S>, m: Mem<A>, stack: set<Path>, q: Query)
    requires AllSound(m) && ServeReply(b, m, stack, q).trace.right
    ensures AllSound(ServeReply(b, m, stack, q).mem)
    decreases Room(b.docs, stack), 1, 0
  {
    match q
    case AskDocument(p) =>
    case AskFunction(k) => assert OriginOf(Learned(m, b.resolver, k), "") == OriginOf(m, "");
    case AskSignature(p) =>
      if IsGraph(b.x, b.docs, p) && p !in stack {
        ServeKeepsSound(b, m, stack, p);
      }
  }

  /** All the answers an analysis with the store gets. */
  ghost function ServedTranscript<A, S>(b: Base<A, S>, m: Mem<A>, stack: set<Path>, d: nat,
      answers: seq<Answer<S>>): (t: seq<Answer<S>>)
    ensures answers <= t && ServeRun(b, m, stack, d, answers).analysis == b.x.finish(d, t)
    decreases b.x.limit(d) - |answers|
  {
    if !Asks(b.x, d, answers) then answers
    else
      var r := ServeReply(b, m, stack, b.x.next(d, answers).value);
      ServedTranscript(b, r.mem, stack, d, answers + [r.answer])
  }

  /**
   For a reporting analyzer, as long as all stored entries came about rightly, a wrong
   entry on the way shows in the result.
   */
  lemma {:induction false} ServeTells<A(!new), S(!new)>(b: Base<A, S>, m: Mem<A>, w: World, stack: set<Path>, p: Path)
    requires Reporting(b.x) && MemOk(b.x, m) && AllSound(m) && IsWorld(b, m.types, w) && IsGraph(b.x, b.docs, p) &&
      p !in stack
    requires Serve(b, m, stack, p).analysis == Fresh(b.x, w, stack, p).analysis
    ensures Serve(b, m, stack, p).trace.right
    decreases Room(b.docs, stack), 0, 0
  {
    if p in m.cache && Hits(m.cache[p], b.docs, m.types) {
      FreshEntryIsRight(b, m.types, w, stack, p, m.cache[p], OriginOf(m, p));
    } else {
      LessRoom(b.docs, stack, p);
      ServeRunTells(b, m, w, stack + {p}, b.docs[p], []);
    }
  }

  lemma {:induction false} ServeRunTells<A(!new), S(!new)>(b: Base<A, S>, m: Mem<A>, w: World, stack: set<Path>, d: nat,
      answers: seq<Answer<S>>)
    requires Reporting(b.x) && MemOk(b.x, m) && AllSound(m) && IsWorld(b, m.types, w)
    requires ServeRun(b, m, stack, d, answers).analysis == Run(b.x, w, stack, d, answers).analysis
    ensures ServeRun(b, m, stack, d, answers).trace.right
    decreases Room(b.docs, stack), 2, b.x.limit(d) - |answers|
  {
    if Asks(b.x, d, answers) {
      var q := b.x.next(d, answers).value;
      var r, reply := ServeReply(b, m, stack, q), ReplyTo(b.x, w, stack, q);
      var t := ServedTranscript(b, r.mem, stack, d, answers + [r.answer]);
      var t' := Transcript(b.x, w, stack, d, answers + [reply.answer]);
      assert t == t' && t[|answers|] == r.answer && t'[|answers|] == reply.answer;
      ServeReplyTells(b, m, w, stack, q);
      ServeReplyFresh(b, m, w, stack, q);
      ServeReplyKeepsSound(b, m, stack, q);
      ServeRunTells(b, r.mem, w, stack, d, answers + [r.answer]);
    }
  }

  lemma {:induction false} ServeReplyTells<A(!new), S(!new)>(b: Base<A, S>, m: Mem<A>, w: World, stack: set<Path>,
      q: Query)
    requires Reporting(b.x) && MemOk(b.x, m) && AllSound(m) && IsWorld(b, m.types, w)
    requires ServeReply(b, m, stack, q).answer == ReplyTo(b.x, w, stack, q).answer
    ensures ServeReply(b, m, stack, q).trace.right
    decreases Room(b.docs, stack), 1, 0
  {
    if q.AskSignature? && IsGraph(b.x, b.docs, q.path) && q.path !in stack {
      ServeTells(b, m, w, stack, q.path);
    }
  }
}
