/**
 Whole histories of the analysis store: edits, function types, resolvers and
 questions. A question is answered as by an analysis from scratch if every entry
 used on the way was the right one, and for an analyzer that reports what it was
 told only then. Three conditions on the history are enough for that.
 */
module StoreHistory {
  import opened PathOrder
  import opened Wrappers
  import opened ImportComponents
  import opened GraphAnalysis
  import opened AnalysisStore

  datatype Step =
    | Put(p: Path, d: nat)
    | Remove(p: Path)
    | Learn(k: FunctionKey, t: Resolved)
    | SetResolver(resolver: Option<FunctionKey -> Resolved>)
    | Ask(p: Path)

  /** current says whether the snapshot is of these documents. */
  datatype Hist<!A> = Hist(docs: map<Path, nat>, resolver: Option<FunctionKey -> Resolved>, mem: Mem<A>, current: bool)

  /** A new snapshot drops the entries of documents that are gone. */
  function Retained<A>(m: Mem<A>, docs: map<Path, nat>): Mem<A> {
    m.(cache := map p | p in m.cache && p in docs :: m.cache[p])
  }

  function AtHand<A>(h: Hist<A>): Mem<A> {
    if h.current then h.mem else Retained(h.mem, h.docs)
  }

  /** What a question is answered with. */
  ghost function Asked<A, S>(x: Analyzer<A, S>, h: Hist<A>, p: Path): Served<A>
    requires IsGraph(x, h.docs, p)
  {
    Serve(Base(x, h.docs, h.resolver), AtHand(h), {}, p)
  }

  ghost function Apply<A, S>(x: Analyzer<A, S>, h: Hist<A>, step: Step): Hist<A> {
    match step
    case Put(p, d) => h.(docs := h.docs[p := d], current := false)
    case Remove(p) => if p in h.docs then h.(docs := h.docs - {p}, current := false) else h
    case Learn(k, t) => h.(mem := h.mem.(types := h.mem.types[k := t]), current := false)
    case SetResolver(r) => h.(resolver := r, current := false)
    case Ask(p) => h.(mem := if IsGraph(x, h.docs, p) then Asked(x, h, p).mem else AtHand(h), current := true)
  }

  ghost function After<A, S>(x: Analyzer<A, S>, steps: seq<Step>): Hist<A> {
    if steps == [] then Hist(map[], None, Mem(map[], map[], map[]), false)
    else Apply(x, After(x, steps[..|steps| - 1]), steps[|steps| - 1])
  }

  ghost function AnswerOf<A, S>(x: Analyzer<A, S>, h: Hist<A>, p: Path): Option<A> {
    if IsGraph(x, h.docs, p) then Some(Asked(x, h, p).analysis) else None
  }

  /** Every entry that answering the question uses is the right one. */
  ghost predicate RightAt<A, S>(x: Analyzer<A, S>, h: Hist<A>, p: Path) {
    IsGraph(x, h.docs, p) ==> Asked(x, h, p).trace.right
  }

  ghost function WorldOf<A>(h: Hist<A>): World {
    World(h.docs, k => OutcomeOf(h.mem.types, h.resolver, k))
  }

  /** The analysis of p from scratch, if it is a graph. */
  ghost function FreshAnswer<A, S>(x: Analyzer<A, S>, w: World, p: Path): Option<A> {
    if IsGraph(x, w.docs, p) then Some(Fresh(x, w, {}, p).analysis) else None
  }

  // ---------------------------------------------------------------- answers from scratch

  lemma {:induction false} HistoryOk<A, S>(x: Analyzer<A, S>, steps: seq<Step>)
    ensures MemOk(x, After(x, steps).mem) && MemOk(x, AtHand(After(x, steps)))
  {
    if steps == [] {
      assert MemOk(x, After(x, steps).mem);
    } else {
      var before, step := steps[..|steps| - 1], steps[|steps| - 1];
      HistoryOk(x, before);
      StepOk(x, After(x, before), step);
    }
    RetainedOk(x, After(x, steps).mem, After(x, steps).docs);
  }

  lemma RetainedOk<A, S>(x: Analyzer<A, S>, m: Mem<A>, docs: map<Path, nat>)
    requires MemOk(x, m)
    ensures MemOk(x, Retained(m, docs))
  {
    forall p
      ensures OriginOf(Retained(m, docs), p) == OriginOf(m, p)
    {
    }
  }

  lemma StepOk<A, S>(x: Analyzer<A, S>, h: Hist<A>, step: Step)
    requires MemOk(x, h.mem) && MemOk(x, AtHand(h))
    ensures MemOk(x, Apply(x, h, step).mem)
  {
    var m := Apply(x, h, step).mem;
    if step.Ask? {
      if IsGraph(x, h.docs, step.p) {
        ServeFresh(Base(x, h.docs, h.resolver), AtHand(h), WorldOf(h), {}, step.p);
      }
    } else {
      forall p
        ensures OriginOf(m, p) == OriginOf(h.mem, p)
      {
      }
    }
  }

  /** A question that uses only right entries is answered as by an analysis from scratch. */
  lemma RightAnswerIsFresh<A, S>(x: Analyzer<A, S>, steps: seq<Step>, p: Path)
    requires RightAt(x, After(x, steps), p)
    ensures AnswerOf(x, After(x, steps), p) == FreshAnswer(x, WorldOf(After(x, steps)), p)
  {
    var h := After(x, steps);
    HistoryOk(x, steps);
    if IsGraph(x, h.docs, p) {
      ServeFresh(Base(x, h.docs, h.resolver), AtHand(h), WorldOf(h), {}, p);
    }
  }

  /** Every question so far used only right entries. */
  ghost predicate AllRight<A, S>(x: Analyzer<A, S>, steps: seq<Step>) {
    forall i :: 0 <= i < |steps| && steps[i].Ask? ==> RightAt(x, After(x, steps[..i]), steps[i].p)
  }

  lemma AllRightBefore<A, S>(x: Analyzer<A, S>, steps: seq<Step>)
    requires steps != []
    ensures AllRight(x, steps) <==>
      var before, step := steps[..|steps| - 1], steps[|steps| - 1];
      AllRight(x, before) && (step.Ask? ==> RightAt(x, After(x, before), step.p))
  {
    var before := steps[..|steps| - 1];
    forall i | 0 <= i < |before|
      ensures before[..i] == steps[..i] && before[i] == steps[i]
    {
    }
  }

  lemma {:induction false} AllRightSound<A, S>(x: Analyzer<A, S>, steps: seq<Step>)
    requires AllRight(x, steps)
    ensures AllSound(After(x, steps).mem) && AllSound(AtHand(After(x, steps)))
  {
    if steps != [] {
      var before, step := steps[..|steps| - 1], steps[|steps| - 1];
      AllRightBefore(x, steps);
      AllRightSound(x, before);
      StepSound(x, After(x, before), step);
    }
    RetainedSound(After(x, steps).mem, After(x, steps).docs);
  }

  lemma RetainedSound<A>(m: Mem<A>, docs: map<Path, nat>)
    requires AllSound(m)
    ensures AllSound(Retained(m, docs))
  {
    forall p
      ensures OriginOf(Retained(m, docs), p) == OriginOf(m, p)
    {
    }
  }

  lemma StepSound<A, S>(x: Analyzer<A, S>, h: Hist<A>, step: Step)
    requires AllSound(h.mem) && AllSound(AtHand(h)) && (step.Ask? ==> RightAt(x, h, step.p))
    ensures AllSound(Apply(x, h, step).mem)
  {
    var m := Apply(x, h, step).mem;
    if step.Ask? {
      if IsGraph(x, h.docs, step.p) {
        ServeKeepsSound(Base(x, h.docs, h.resolver), AtHand(h), {}, step.p);
      }
    } else {
      forall p
        ensures OriginOf(m, p) == OriginOf(h.mem, p)
      {
      }
    }
  }

  /**
   For a reporting analyzer the first answer that is not from scratch is the one to the
   first question that uses a wrong entry.
   */
  lemma FreshAnswerIffRight<A(!new), S(!new)>(x: Analyzer<A, S>, steps: seq<Step>, p: Path)
    requires Reporting(x) && AllRight(x, steps)
    ensures AnswerOf(x, After(x, steps), p) == FreshAnswer(x, WorldOf(After(x, steps)), p) <==>
      RightAt(x, After(x, steps), p)
  {
    var h := After(x, steps);
    if RightAt(x, h, p) {
      RightAnswerIsFresh(x, steps, p);
    } else if AnswerOf(x, h, p) == FreshAnswer(x, WorldOf(h), p) {
      HistoryOk(x, steps);
      AllRightSound(x, steps);
      ServeTells(Base(x, h.docs, h.resolver), AtHand(h), WorldOf(h), {}, p);
    }
  }

  // ---------------------------------------------------------------- histories in which only right entries are used

  /** No policy outside is linked to the unchanged policies of a component. */
  ghost predicate NoNewLinks<A, S>(x: Analyzer<A, S>, docs: map<Path, nat>, docs': map<Path, nat>) {
    forall k :: k in ParsedIn(x, docs) && SameDocs(docs, docs', Members(x, docs, k)) ==>
      Closed(ParsedIn(x, docs'), Members(x, docs, k))
  }

  /** Documents that are the same make up the same component, exactly if nothing outside is linked to them. */
  lemma MembersKeptIff<A, S>(x: Analyzer<A, S>, docs: map<Path, nat>, docs': map<Path, nat>, k: Path)
    requires k in ParsedIn(x, docs) && SameDocs(docs, docs', Members(x, docs, k))
    ensures Members(x, docs', k) == Members(x, docs, k) <==> Closed(ParsedIn(x, docs'), Members(x, docs, k))
  {
    var parsed, parsed' := ParsedIn(x, docs), ParsedIn(x, docs');
    forall p | p in Members(x, docs, k)
      ensures p in parsed && p in parsed' && parsed[p] == parsed'[p]
    {
      assert DocAt(docs, p) == DocAt(docs', p);
    }
    PinnedByMembers(parsed, parsed', k);
  }

  /**
   An entry that came about rightly, among none of the graphs that it asked for, on
   documents of the past, knowing all functions.
   */
  ghost predicate CalmEntry<A>(resolver: Option<FunctionKey -> Resolved>, past: set<map<Path, nat>>, e: Entry<A>,
      o: Origin) {
    o.sound && o.asked !! o.stack && o.docs in past && NothingUnknown(e, resolver)
  }

  ghost predicate Calm<A>(resolver: Option<FunctionKey -> Resolved>, past: set<map<Path, nat>>, m: Mem<A>) {
    forall p :: p in m.cache ==> CalmEntry(resolver, past, m.cache[p], OriginOf(m, p))
  }

  /** What an analysis asks of policies it asks of all their members. */
  lemma {:induction false} FreshReadsMembers<A, S>(x: Analyzer<A, S>, w: World, stack: set<Path>, p: Path)
    requires IsGraph(x, w.docs, p) && p !in stack
    ensures forall k :: k in Fresh(x, w, stack, p).read.policies ==>
      k in ParsedIn(x, w.docs) && Members(x, w.docs, k) <= Fresh(x, w, stack, p).read.docs
    decreases Room(w.docs, stack), 0, 0
  {
    LessRoom(w.docs, stack, p);
    RunReadsMembers(x, w, stack + {p}, w.docs[p], []);
  }

  lemma {:induction false} RunReadsMembers<A, S>(x: Analyzer<A, S>, w: World, stack: set<Path>, d: nat,
      answers: seq<Answer<S>>)
    ensures forall k :: k in Run(x, w, stack, d, answers).read.policies ==>
      k in ParsedIn(x, w.docs) && Members(x, w.docs, k) <= Run(x, w, stack, d, answers).read.docs
    decreases Room(w.docs, stack), 2, x.limit(d) - |answers|
  {
    if Asks(x, d, answers) {
      var q := x.next(d, answers).value;
      if q.AskSignature? && IsGraph(x, w.docs, q.path) && q.path !in stack {
        FreshReadsMembers(x, w, stack, q.path);
      }
      RunReadsMembers(x, w, stack, d, answers + [ReplyTo(x, w, stack, q).answer]);
    }
  }

  /** Where references have no cycle, a calm entry that hits is the right one. */
  lemma CalmEntryIsRight<A(!new), S(!new)>(b: Base<A, S>, past: set<map<Path, nat>>, types: map<FunctionKey, Resolved>,
      rank: Path -> nat, stack: set<Path>, p: Path, e: Entry<A>, o: Origin)
    requires Proper(b.x) && Acyclic(b.x, b.docs, rank) && AllAbove(rank, stack, rank(p))
    requires Exact(b.x, p, e, o) && Hits(e, b.docs, types) && CalmEntry(b.resolver, past, e, o)
    requires NoNewLinks(b.x, o.docs, b.docs)
    ensures RightEntry(b, e, o, stack)
  {
    var w := World(o.docs, Known(e.functions));
    var r := Fresh(b.x, w, o.stack, p);
    StampsSame(e, o.docs, b.docs, types, r.read.docs);
    AskedBelow(b.x, w, b.docs, rank, o.stack, p);
    FreshReadsMembers(b.x, w, o.stack, p);
    forall k | k in o.policies
      ensures Members(b.x, b.docs, k) == Members(b.x, o.docs, k)
    {
      MembersKeptIff(b.x, o.docs, b.docs, k);
    }
  }

  lemma StoredCalm<A(!new), S(!new)>(b: Base<A, S>, past: set<map<Path, nat>>, m: Mem<A>, w: World, rank: Path -> nat,
      stack: set<Path>, p: Path, analysis: A, t: Trace)
    requires Proper(b.x) && Acyclic(b.x, b.docs, rank) && AllAbove(rank, stack, rank(p)) && b.docs in past
    requires Calm(b.resolver, past, m) && IsWorld(b, m.types, w) && IsGraph(b.x, b.docs, p) && p !in stack
    requires t.right && Mirrors(w, t, Fresh(b.x, w, stack, p).read)
    ensures Calm(b.resolver, past, Stored(m, b.docs, stack, p, analysis, t))
  {
    var m' := Stored(m, b.docs, stack, p, analysis, t);
    AskedBelow(b.x, w, b.docs, rank, stack, p);
    forall k | k in t.functions && b.resolver.Some?
      ensures t.functions[k].Some?
    {
      assert t.functions[k] == w.outcome(k) == OutcomeOf(m.types, b.resolver, k);
    }
    forall q | q in m'.cache && q != p
      ensures m'.cache[q] == m.cache[q] && OriginOf(m', q) == OriginOf(m, q)
    {
    }
  }

  ghost predicate CalmNow<A, S>(b: Base<A, S>, past: set<map<Path, nat>>, m: Mem<A>, w: World) {
    && MemOk(b.x, m) && Calm(b.resolver, past, m) && IsWorld(b, m.types, w)
    && b.docs in past && forall docs :: docs in past ==> NoNewLinks(b.x, docs, b.docs)
  }

  /** Where references have no cycle, an analysis uses only right entries of a calm store, and leaves it calm. */
  lemma {:induction false} ServeCalm<A(!new), S(!new)>(b: Base<A, S>, past: set<map<Path, nat>>, m: Mem<A>, w: World,
      rank: Path -> nat, stack: set<Path>, p: Path)
    requires Proper(b.x) && Acyclic(b.x, b.docs, rank) && AllAbove(rank, stack, rank(p))
    requires CalmNow(b, past, m, w) && IsGraph(b.x, b.docs, p) && p !in stack
    ensures Serve(b, m, stack, p).trace.right && CalmNow(b, past, Serve(b, m, stack, p).mem, w)
    decreases Room(b.docs, stack), 0, 0
  {
    if p in m.cache && Hits(m.cache[p], b.docs, m.types) {
      CalmEntryIsRight(b, past, m.types, rank, stack, p, m.cache[p], OriginOf(m, p));
    } else {
      LessRoom(b.docs, stack, p);
      ServeRunCalm(b, past, m, w, rank, stack + {p}, p, []);
      var r := ServeRun(b, m, stack + {p}, b.docs[p], []);
      ServeFresh(b, m, w, stack, p);
      StoredCalm(b, past, r.mem, w, rank, stack, p, r.analysis, Join(Trace({p}, map[], {}, {}, true), r.trace));
    }
  }

  lemma {:induction false} ServeRunCalm<A(!new), S(!new)>(b: Base<A, S>, past: set<map<Path, nat>>, m: Mem<A>, w: World,
      rank: Path -> nat, stack: set<Path>, p: Path, answers: seq<Answer<S>>)
    requires Proper(b.x) && Acyclic(b.x, b.docs, rank) && (forall s :: s in stack ==> rank(p) <= rank(s))
    requires CalmNow(b, past, m, w) && IsGraph(b.x, b.docs, p)
    ensures ServeRun(b, m, stack, b.docs[p], answers).trace.right &&
      CalmNow(b, past, ServeRun(b, m, stack, b.docs[p], answers).mem, w)
    decreases Room(b.docs, stack), 2, b.x.limit(b.docs[p]) - |answers|
  {
    var d := b.docs[p];
    if Asks(b.x, d, answers) {
      var q := b.x.next(d, answers).value;
      var r := ServeReply(b, m, stack, q);
      ServeReplyCalm(b, past, m, w, rank, stack, p, q);
      ServeRunCalm(b, past, r.mem, w, rank, stack, p, answers + [r.answer]);
    }
  }

  lemma {:induction false} ServeReplyCalm<A(!new), S(!new)>(b: Base<A, S>, past: set<map<Path, nat>>, m: Mem<A>,
      w: World,
      rank: Path -> nat, stack: set<Path>, p: Path, q: Query)
    requires Proper(b.x) && Acyclic(b.x, b.docs, rank) && (forall s :: s in stack ==> rank(p) <= rank(s))
    requires CalmNow(b, past, m, w) && IsGraph(b.x, b.docs, p) && (q.AskSignature? ==>
      q.path in b.x.decisions(b.docs[p]))
    ensures ServeReply(b, m, stack, q).trace.right && CalmNow(b, past, ServeReply(b, m, stack, q).mem, w)
    decreases Room(b.docs, stack), 1, 0
  {
    match q
    case AskDocument(k) =>
    case AskFunction(k) =>
      LearningKeepsWorld(b, m, w, k);
      LearningKeepsCalm(b, past, m, k);
    case AskSignature(k) =>
      if IsGraph(b.x, b.docs, k) && k !in stack {
        ServeCalm(b, past, m, w, rank, stack, k);
      }
  }

  lemma LearningKeepsCalm<A, S>(b: Base<A, S>, past: set<map<Path, nat>>, m: Mem<A>, k: FunctionKey)
    requires MemOk(b.x, m) && Calm(b.resolver, past, m)
    ensures MemOk(b.x, Learned(m, b.resolver, k)) && Calm(b.resolver, past, Learned(m, b.resolver, k))
  {
    forall p
      ensures OriginOf(Learned(m, b.resolver, k), p) == OriginOf(m, p)
    {
    }
  }

  /** The documents at each of the questions so far. */
  ghost function Past<A, S>(x: Analyzer<A, S>, steps: seq<Step>): set<map<Path, nat>> {
    if steps == [] then {}
    else
      var before, step := steps[..|steps| - 1], steps[|steps| - 1];
      Past(x, before) + if step.Ask? then {After(x, before).docs} else {}
  }

  /** Every function that a stored analysis depends on is known, or will stay unknown. */
  ghost predicate AllKnown<A>(m: Mem<A>, resolver: Option<FunctionKey -> Resolved>) {
    forall p :: p in m.cache ==> NothingUnknown(m.cache[p], resolver)
  }

  /**
   What is enough for a step after the given ones: at a question references have no
   cycle, and no policy outside is linked to components that stayed the same since an
   earlier question; no stored analysis depends on an unknown function when a resolver
   is set.
   */
  ghost predicate Harmless<A, S>(x: Analyzer<A, S>, steps: seq<Step>, step: Step, rank: Path -> nat) {
    var h := After(x, steps);
    match step
    case Ask(_) => Acyclic(x, h.docs, rank) && forall docs :: docs in Past(x, steps) ==> NoNewLinks(x, docs, h.docs)
    case SetResolver(r) => AllKnown(h.mem, r)
    case _ => true
  }

  lemma SelfLinks<A, S>(x: Analyzer<A, S>, docs: map<Path, nat>)
    ensures NoNewLinks(x, docs, docs)
  {
    forall k
      ensures Closed(ParsedIn(x, docs), Members(x, docs, k))
    {
      ComponentClosed(ParsedIn(x, docs), k);
    }
  }

  /** A history of harmless steps uses only right entries, so all its answers are from scratch. */
  lemma {:induction false} HarmlessIsRight<A(!new), S(!new)>(x: Analyzer<A, S>, steps: seq<Step>,
      ranks: seq<Path -> nat>)
    requires Proper(x) && |ranks| == |steps|
    requires forall i :: 0 <= i < |steps| ==> Harmless(x, steps[..i], steps[i], ranks[i])
    ensures AllRight(x, steps) && Calm(After(x, steps).resolver, Past(x, steps), After(x, steps).mem)
  {
    if steps != [] {
      var n := |steps| - 1;
      var before, step := steps[..n], steps[n];
      forall i | 0 <= i < n
        ensures Harmless(x, before[..i], before[i], ranks[..n][i])
      {
        assert before[..i] == steps[..i];
      }
      HarmlessIsRight(x, before, ranks[..n]);
      HistoryOk(x, before);
      StepCalm(x, before, step, ranks[n]);
      AllRightBefore(x, steps);
    }
  }

  lemma StepCalm<A(!new), S(!new)>(x: Analyzer<A, S>, steps: seq<Step>, step: Step, rank: Path -> nat)
    requires Proper(x) && Harmless(x, steps, step, rank)
    requires MemOk(x, AtHand(After(x, steps))) && Calm(After(x, steps).resolver, Past(x, steps), After(x, steps).mem)
    ensures step.Ask? ==> RightAt(x, After(x, steps), step.p)
    ensures var past := Past(x, steps) + if step.Ask? then {After(x, steps).docs} else {};
      Calm(Apply(x, After(x, steps), step).resolver, past, Apply(x, After(x, steps), step).mem)
  {
    var h := After(x, steps);
    var past := Past(x, steps) + if step.Ask? then {h.docs} else {};
    var h' := Apply(x, h, step);
    if step.Ask? {
      RetainedCalm(h, Past(x, steps), past);
      SelfLinks(x, h.docs);
      if IsGraph(x, h.docs, step.p) {
        ServeCalm(Base(x, h.docs, h.resolver), past, AtHand(h), WorldOf(h), rank, {}, step.p);
      }
    } else {
      forall p
        ensures OriginOf(h'.mem, p) == OriginOf(h.mem, p)
      {
      }
    }
  }

  lemma RetainedCalm<A>(h: Hist<A>, past: set<map<Path, nat>>, past': set<map<Path, nat>>)
    requires Calm(h.resolver, past, h.mem) && past <= past'
    ensures Calm(h.resolver, past', AtHand(h))
  {
    forall p
      ensures OriginOf(AtHand(h), p) == OriginOf(h.mem, p)
    {
    }
  }
}
