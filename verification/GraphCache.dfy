/**
 The database of the workspace: documents, the snapshot computed from them, known
 function types, and the store of graph analyses with the stack of graphs under
 analysis and the frames in which an analysis collects what it reads.
 */
module GraphCache {
  import opened PathOrder
  import opened Wrappers
  import opened ImportComponents
  import opened GraphAnalysis
  import opened AnalysisStore
  import opened StoreHistory
  import opened StoreWorld

  // ---------------------------------------------------------------- frames

  /** What an analysis has read so far. */
  datatype Frame = Frame(docs: set<Path>, functions: map<FunctionKey, Option<Resolved>>)

  /** The top frame has read more. */
  function Recorded(frames: seq<Frame>, docs: set<Path>, functions: map<FunctionKey, Option<Resolved>>): seq<Frame> {
    if frames == [] then []
    else
      var top := frames[|frames| - 1];
      frames[..|frames| - 1] + [Frame(top.docs + docs, top.functions + functions)]
  }

  lemma RecordedTwice(frames: seq<Frame>, docs: set<Path>, functions: map<FunctionKey, Option<Resolved>>,
      docs': set<Path>, functions': map<FunctionKey, Option<Resolved>>)
    ensures Recorded(Recorded(frames, docs, functions), docs', functions') ==
      Recorded(frames, docs + docs', functions + functions')
  {
    if frames != [] {
      var top := frames[|frames| - 1];
      assert top.docs + docs + docs' == top.docs + (docs + docs');
      assert top.functions + functions + functions' == top.functions + (functions + functions');
    }
  }

  ghost function RecordedTrace(frames: seq<Frame>, t: Trace): seq<Frame> {
    Recorded(frames, t.docs, t.functions)
  }

  lemma RecordedJoin(frames: seq<Frame>, a: Trace, b: Trace)
    ensures RecordedTrace(RecordedTrace(frames, a), b) == RecordedTrace(frames, Join(a, b))
  {
    RecordedTwice(frames, a.docs, a.functions, b.docs, b.functions);
  }

  // ---------------------------------------------------------------- the snapshot

  datatype Snapshot = Snapshot(docs: map<Path, nat>, components: seq<seq<Path>>, componentOf: map<Path, nat>)

  /** The snapshot names for every policy the list of the policies that it is connected to. */
  ghost predicate SnapshotOk<A, S>(x: Analyzer<A, S>, s: Snapshot) {
    && s.componentOf.Keys == ParsedIn(x, s.docs).Keys
    && forall k :: k in s.componentOf ==>
         s.componentOf[k] < |s.components| && Elements(s.components[s.componentOf[k]]) == Members(x, s.docs, k)
  }

  method ComputeSnapshot<A, S>(x: Analyzer<A, S>, docs: map<Path, nat>) returns (s: Snapshot)
    ensures s.docs == docs && SnapshotOk(x, s)
  {
    var parsed := ParsedIn(x, docs);
    var edges := ComputeImportGraph(parsed);
    var components, componentOf := ComputeComponents(parsed, edges);
    s := Snapshot(docs, components, componentOf);
    forall k | k in componentOf
      ensures Elements(components[componentOf[k]]) == ComponentOf(parsed, k)
    {
      forall q
        ensures q in components[componentOf[k]] <==> q in ComponentOf(parsed, k)
      {
        if Connected(parsed, k, q) {
          ConnectedInside(parsed, k, q);
        }
      }
    }
  }

  // ---------------------------------------------------------------- the database

  /** The rest of an analysis starts from here: answers, memory and trace so far. */
  ghost predicate Midway<A, S>(b: Base<A, S>, whole: Served<A>, stack: set<Path>, d: nat, answers: seq<Answer<S>>,
      m: Mem<A>, t: Trace) {
    var rest := ServeRun(b, m, stack, d, answers);
    whole == Served(rest.mem, rest.analysis, Join(t, rest.trace))
  }

  lemma MidwayAtStart<A, S>(b: Base<A, S>, stack: set<Path>, d: nat, m: Mem<A>)
    ensures Midway(b, ServeRun(b, m, stack, d, []), stack, d, [], m, NO_TRACE)
  {
    var t := ServeRun(b, m, stack, d, []).trace;
    assert map[] + t.functions == t.functions;
    assert Join(NO_TRACE, t) == t;
  }

  lemma MidwayOneMore<A, S>(b: Base<A, S>, whole: Served<A>, stack: set<Path>, d: nat, answers: seq<Answer<S>>,
      m: Mem<A>, t: Trace)
    requires Midway(b, whole, stack, d, answers, m, t) && Asks(b.x, d, answers)
    ensures var r := ServeReply(b, m, stack, b.x.next(d, answers).value);
      Midway(b, whole, stack, d, answers + [r.answer], r.mem, Join(t, r.trace))
  {
    var r := ServeReply(b, m, stack, b.x.next(d, answers).value);
    JoinAssociative(t, r.trace, ServeRun(b, r.mem, stack, d, answers + [r.answer]).trace);
  }

  lemma MidwayAtEnd<A, S>(b: Base<A, S>, whole: Served<A>, stack: set<Path>, d: nat, answers: seq<Answer<S>>,
      m: Mem<A>, t: Trace)
    requires Midway(b, whole, stack, d, answers, m, t) && !Asks(b.x, d, answers)
    ensures whole == Served(m, b.x.finish(d, answers), t)
  {
    assert t.functions + map[] == t.functions;
    assert Join(t, NO_TRACE) == t;
  }

  /** A new analysis of p, before it is stored: it has read its own document as well. */
  function ServedNew<A>(p: Path, run: Served<A>): Served<A> {
    Served(run.mem, run.analysis, Join(Trace({p}, map[], {}, {}, true), run.trace))
  }

  lemma ServeMisses<A, S>(b: Base<A, S>, m: Mem<A>, stack: set<Path>, p: Path)
    requires IsGraph(b.x, b.docs, p) && p !in stack && !(p in m.cache && Hits(m.cache[p], b.docs, m.types))
    ensures var s := ServedNew(p, ServeRun(b, m, stack + {p}, b.docs[p], []));
      Serve(b, m, stack, p) == Served(Stored(s.mem, b.docs, stack, p, s.analysis, s.trace), s.analysis, s.trace)
  {
  }

  lemma ServeHits<A, S>(b: Base<A, S>, m: Mem<A>, stack: set<Path>, p: Path)
    requires IsGraph(b.x, b.docs, p) && p !in stack && p in m.cache && Hits(m.cache[p], b.docs, m.types)
    ensures Serve(b, m, stack, p).mem == m && Serve(b, m, stack, p).analysis == m.cache[p].analysis
    ensures FrameOf(Serve(b, m, stack, p).trace) == Frame(m.cache[p].docs.Keys, m.cache[p].functions)
  {
  }

  function FrameOf(t: Trace): Frame {
    Frame(t.docs, t.functions)
  }

  /** The frame pushed for p collects what its analysis reads; below it the frames are as before. */
  lemma PushedFrame(frames: seq<Frame>, p: Path, t: Trace)
    ensures var after := RecordedTrace(frames + [Frame({p}, map[])], t);
      && after != [] && after[..|after| - 1] == frames
      && after[|after| - 1] == FrameOf(Join(Trace({p}, map[], {}, {}, true), t))
  {
    var pushed := frames + [Frame({p}, map[])];
    assert pushed[..|pushed| - 1] == frames;
  }

  lemma PushedPath(stack: seq<Path>, p: Path)
    ensures Elements(stack + [p]) == Elements(stack) + {p} && (stack + [p])[..|stack + [p]| - 1] == stack
  {
  }

  class Db<A(!new), S(!new)> {
    const x: Analyzer<A, S>
    var docs: map<Path, nat>
    var types: map<FunctionKey, Resolved>
    var resolver: Option<FunctionKey -> Resolved>
    var snapshot: Option<Snapshot>
    var cache: map<Path, Entry<A>>
    var stack: seq<Path>
    var frames: seq<Frame>
    ghost var origins: map<Path, Origin>

    constructor (x: Analyzer<A, S>)
      ensures this.x == x && Valid() && stack == [] && frames == [] && History() == After(x, [])
    {
      this.x := x;
      docs, types, resolver, snapshot, cache := map[], map[], None, None, map[];
      stack, frames := [], [];
      origins := map[];
    }

    /** The snapshot, if there is one, is of the documents. */
    ghost predicate Valid()
      reads `docs, `snapshot
    {
      snapshot.Some? ==> snapshot.value.docs == docs && SnapshotOk(x, snapshot.value)
    }

    ghost function Memory(): Mem<A>
      reads `types, `cache, `origins
    {
      Mem(types, cache, origins)
    }

    ghost function Fixed(): Base<A, S>
      reads `docs, `resolver
    {
      Base(x, docs, resolver)
    }

    /** The state as the history of steps describes it. */
    ghost function History(): Hist<A>
      reads `docs, `types, `resolver, `snapshot, `cache, `origins
    {
      Hist(docs, resolver, Memory(), snapshot.Some?)
    }

    /** The memory once there is a snapshot. */
    ghost function Ready(): Mem<A>
      reads `docs, `types, `resolver, `snapshot, `cache, `origins
    {
      AtHand(History())
    }

    /** The snapshot; entries of documents that are gone are dropped with the old one. */
    method CurrentSnapshot() returns (s: Snapshot)
      requires Valid()
      modifies `snapshot, `cache
      ensures Valid() && snapshot == Some(s) && Memory() == old(Ready())
      ensures old(snapshot).Some? ==> snapshot == old(snapshot)
    {
      if snapshot.None? {
        cache := map p | p in cache && p in docs :: cache[p];
        s := ComputeSnapshot(x, docs);
        snapshot := Some(s);
      }
      s := snapshot.value;
    }

    method Record(docs: set<Path>, functions: map<FunctionKey, Option<Resolved>>)
      modifies `frames
      ensures frames == Recorded(old(frames), docs, functions)
    {
      if frames != [] {
        var top := frames[|frames| - 1];
        frames := frames[..|frames| - 1] + [Frame(top.docs + docs, top.functions + functions)];
      }
    }

    /** The stored analysis, if nothing that it read has changed; what it read is recorded in the enclosing frame. */
    method CachedGraphAnalysis(p: Path) returns (r: Option<A>)
      modifies `frames
      ensures r.Some? <==> p in cache && Hits(cache[p], docs, types)
      ensures r.Some? ==>
        r.value == cache[p].analysis && frames == Recorded(old(frames), cache[p].docs.Keys, cache[p].functions)
      ensures r.None? ==> frames == old(frames)
    {
      if p !in cache || !Hits(cache[p], docs, types) {
        return None;
      }
      Record(cache[p].docs.Keys, cache[p].functions);
      r := Some(cache[p].analysis);
    }

    /** An analysis is stored with the stamps of what it read; how it came about is not stored. */
    method StoreGraphAnalysis(p: Path, f: Frame, a: A, ghost t: Trace)
      requires f == FrameOf(t)
      modifies `cache, `origins
      ensures Memory() == Stored(old(Memory()), docs, Elements(stack), p, a, t)
    {
      cache := cache[p := Entry(map q | q in f.docs :: DocAt(docs, q), f.functions, a)];
      origins := origins[p := Origin(docs, Elements(stack), t.asked, t.policies, t.right)];
      assert cache[p].docs == Stamps(docs, t.docs);
    }

    /** What is known of a function, asking the resolver the first time. */
    method FunctionOutputType(k: FunctionKey) returns (o: Option<Resolved>)
      modifies `types, `frames
      ensures Memory() == Learned(old(Memory()), resolver, k) && o == old(OutcomeOf(types, resolver, k))
      ensures frames == Recorded(old(frames), {}, map[k := o])
    {
      if k in types {
        o := Some(types[k]);
      } else if resolver.Some? {
        types := types[k := resolver.value(k)];
        o := Some(types[k]);
      } else {
        o := None;
      }
      Record({}, map[k := StateOf(types, k)]);
    }

    // -------------------------------------------------------------- edits

    method SetDocument(p: Path, d: nat)
      requires Valid()
      modifies `docs, `snapshot
      ensures Valid() && History() == Apply(x, old(History()), Put(p, d))
    {
      docs := docs[p := d];
      snapshot := None;
    }

    method RemoveDocument(p: Path) returns (existed: bool)
      requires Valid()
      modifies `docs, `snapshot
      ensures Valid() && existed == (p in old(docs)) && History() == Apply(x, old(History()), Remove(p))
    {
      existed := p in docs;
      if existed {
        docs := docs - {p};
        snapshot := None;
      }
    }

    method SetFunctionType(k: FunctionKey, t: Resolved)
      requires Valid()
      modifies `types, `snapshot
      ensures Valid() && History() == Apply(x, old(History()), Learn(k, t))
    {
      types := types[k := t];
      snapshot := None;
    }

    /** A new resolver leaves the stored analyses alone. */
    method SetFunctionResolver(resolver': Option<FunctionKey -> Resolved>)
      requires Valid()
      modifies `resolver, `snapshot
      ensures Valid() && History() == Apply(x, old(History()), SetResolver(resolver'))
    {
      resolver := resolver';
      snapshot := None;
    }

    // -------------------------------------------------------------- analyses

    /** The analysis of a graph, stored or new. It ends also where graphs refer to each other in a cycle. */
    method GraphAnalysis(p: Path) returns (r: Option<A>)
      requires Valid() && p !in stack
      modifies `types, `snapshot, `cache, `stack, `frames, `origins
      ensures Valid() && snapshot.Some? && stack == old(stack)
      ensures old(snapshot).Some? ==> snapshot == old(snapshot)
      ensures r.Some? <==> IsGraph(x, docs, p)
      ensures r.None? ==> Memory() == old(Ready()) && frames == old(frames)
      ensures r.Some? ==>
        var s := Serve(Fixed(), old(Ready()), Elements(stack), p);
        r.value == s.analysis && Memory() == s.mem && frames == RecordedTrace(old(frames), s.trace)
      decreases Room(docs, Elements(stack)), 2
    {
      var s := CurrentSnapshot();
      r := None;
      assert p !in Elements(stack);
      if p in s.docs && x.isGraph(s.docs[p]) {
        ghost var served := Serve(Fixed(), Memory(), Elements(stack), p);
        var a := StoredOrNew(p, served);
        r := Some(a);
      }
    }

    method StoredOrNew(p: Path, ghost served: Served<A>) returns (a: A)
      requires Valid() && snapshot.Some? && IsGraph(x, docs, p) && p !in Elements(stack)
      requires served == Serve(Fixed(), Memory(), Elements(stack), p)
      modifies `types, `snapshot, `cache, `stack, `frames, `origins
      ensures snapshot == old(snapshot) && stack == old(stack)
      ensures a == served.analysis && Memory() == served.mem && frames == RecordedTrace(old(frames), served.trace)
      decreases Room(docs, Elements(stack)), 1, 1
    {
      var r := CachedGraphAnalysis(p);
      if r.Some? {
        ServeHits(Fixed(), Memory(), Elements(stack), p);
        a := r.value;
      } else {
        a := NewAnalysis(p, served);
      }
    }

    method NewAnalysis(p: Path, ghost served: Served<A>) returns (a: A)
      requires Valid() && snapshot.Some? && IsGraph(x, docs, p) && p !in Elements(stack)
      requires !(p in cache && Hits(cache[p], docs, types))
      requires served == Serve(Fixed(), Memory(), Elements(stack), p)
      modifies `types, `snapshot, `cache, `stack, `frames, `origins
      ensures snapshot == old(snapshot) && stack == old(stack)
      ensures a == served.analysis && Memory() == served.mem && frames == RecordedTrace(old(frames), served.trace)
      decreases Room(docs, Elements(stack)), 1, 0
    {
      ghost var on := Elements(stack) + {p};
      ghost var run := ServeRun(Fixed(), Memory(), on, docs[p], []);
      ServeMisses(Fixed(), Memory(), Elements(stack), p);
      a := AnalyzeAndStore(p, on, run);
    }

    /** A new analysis is recorded in the enclosing frame and stored. */
    method AnalyzeAndStore(p: Path, ghost on: set<Path>, ghost run: Served<A>) returns (a: A)
      requires Valid() && snapshot.Some? && IsGraph(x, docs, p) && p !in Elements(stack)
      requires on == Elements(stack) + {p} && run == ServeRun(Fixed(), Memory(), on, docs[p], [])
      modifies `types, `snapshot, `cache, `stack, `frames, `origins
      ensures snapshot == old(snapshot) && stack == old(stack)
      ensures a == run.analysis && frames == RecordedTrace(old(frames), ServedNew(p, run).trace)
      ensures Memory() == Stored(run.mem, docs, Elements(stack), p, a, ServedNew(p, run).trace)
      decreases Room(docs, Elements(stack)), 0
    {
      var f;
      a, f := AnalyzeInFrame(p, on, run);
      Record(f.docs, f.functions);
      StoreGraphAnalysis(p, f, a, ServedNew(p, run).trace);
    }

    /** The analysis runs with its graph on the stack and a frame of its own, both of which are gone afterwards. */
    method AnalyzeInFrame(p: Path, ghost on: set<Path>, ghost run: Served<A>) returns (a: A, f: Frame)
      requires Valid() && snapshot.Some? && IsGraph(x, docs, p) && p !in Elements(stack)
      requires on == Elements(stack) + {p} && run == ServeRun(Fixed(), Memory(), on, docs[p], [])
      modifies `types, `snapshot, `cache, `stack, `frames, `origins
      ensures snapshot == old(snapshot) && stack == old(stack) && frames == old(frames)
      ensures a == run.analysis && Memory() == run.mem && f == FrameOf(ServedNew(p, run).trace)
      decreases Room(docs, Elements(stack)), 0, 0
    {
      LessRoom(docs, Elements(stack), p);
      PushedPath(stack, p);
      stack := stack + [p];
      frames := frames + [Frame({p}, map[])];
      a := Analyze(p, on, run);
      PushedFrame(old(frames), p, run.trace);
      f := frames[|frames| - 1];
      stack := stack[..|stack| - 1];
      frames := frames[..|frames| - 1];
    }

    /** One question after the other, each answer recorded in the top frame. */
    method Analyze(p: Path, ghost on: set<Path>, ghost whole: Served<A>) returns (a: A)
      requires Valid() && snapshot.Some? && IsGraph(x, docs, p) && frames != []
      requires on == Elements(stack) && whole == ServeRun(Fixed(), Memory(), on, docs[p], [])
      modifies `types, `snapshot, `cache, `stack, `frames, `origins
      ensures snapshot == old(snapshot) && stack == old(stack)
      ensures a == whole.analysis && Memory() == whole.mem && frames == RecordedTrace(old(frames), whole.trace)
      decreases Room(docs, on), 5
    {
      var d := docs[p];
      var answers: seq<Answer<S>> := [];
      ghost var b, t := Fixed(), NO_TRACE;
      MidwayAtStart(b, on, d, Memory());
      NothingRecorded(frames);
      while |answers| < x.limit(d) && x.next(d, answers).Some?
        invariant snapshot == old(snapshot) && stack == old(stack)
        invariant Midway(b, whole, on, d, answers, Memory(), t)
        invariant frames == RecordedTrace(old(frames), t)
        decreases x.limit(d) - |answers|
      {
        ghost var r := ServeReply(b, Memory(), on, x.next(d, answers).value);
        MidwayOneMore(b, whole, on, d, answers, Memory(), t);
        RecordedJoin(old(frames), t, r.trace);
        var answer := AnswerTo(x.next(d, answers).value, r);
        t := Join(t, r.trace);
        answers := answers + [answer];
      }
      MidwayAtEnd(b, whole, on, d, answers, Memory(), t);
      a := x.finish(d, answers);
    }

    method AnswerTo(q: Query, ghost r: Answered<A, S>) returns (answer: Answer<S>)
      requires Valid() && snapshot.Some? && r == ServeReply(Fixed(), Memory(), Elements(stack), q)
      modifies `types, `snapshot, `cache, `stack, `frames, `origins
      ensures snapshot == old(snapshot) && stack == old(stack)
      ensures answer == r.answer && Memory() == r.mem && frames == RecordedTrace(old(frames), r.trace)
      decreases Room(docs, Elements(stack)), 4
    {
      match q
      case AskDocument(k) =>
        Record({k}, map[]);
        answer := Document(DocAt(docs, k));
      case AskFunction(k) =>
        var o := FunctionOutputType(k);
        answer := Function(o);
      case AskSignature(k) =>
        answer := DecisionSignature(k, r);
    }

    /**
     A graph under analysis answers with a marker, another graph with its signature, a
     policy for all the policies connected to it.
     */
    method DecisionSignature(k: Path, ghost r: Answered<A, S>) returns (answer: Answer<S>)
      requires Valid() && snapshot.Some? && r == ServeReply(Fixed(), Memory(), Elements(stack), AskSignature(k))
      modifies `types, `snapshot, `cache, `stack, `frames, `origins
      ensures snapshot == old(snapshot) && stack == old(stack)
      ensures answer == r.answer && Memory() == r.mem && frames == RecordedTrace(old(frames), r.trace)
      decreases Room(docs, Elements(stack)), 3
    {
      ghost var frames0 := frames;
      Record({k}, map[]);
      var s := snapshot.value;
      assert k in stack <==> k in Elements(stack);
      if k in s.docs && x.isGraph(s.docs[k]) {
        if k in stack {
          answer := Recursive;
        } else {
          answer := GraphSignature(k, Serve(Fixed(), Memory(), Elements(stack), k), frames0);
        }
      } else if k in s.componentOf {
        answer := PolicySignature(k, s, frames0);
      } else {
        answer := Missing;
      }
    }

    method GraphSignature(k: Path, ghost served: Served<A>, ghost frames0: seq<Frame>) returns (answer: Answer<S>)
      requires Valid() && snapshot.Some? && k !in stack && k !in Elements(stack) && IsGraph(x, docs, k)
      requires served == Serve(Fixed(), Memory(), Elements(stack), k) && frames == Recorded(frames0, {k}, map[])
      modifies `types, `snapshot, `cache, `stack, `frames, `origins
      ensures snapshot == old(snapshot) && stack == old(stack)
      ensures answer == Found(x.signature(served.analysis)) && Memory() == served.mem
      ensures frames == RecordedTrace(frames0, Join(Trace({k}, map[], {k}, {}, true), served.trace))
      decreases Room(docs, Elements(stack)), 3, 0
    {
      RecordedJoin(frames0, Trace({k}, map[], {k}, {}, true), served.trace);
      var a := GraphAnalysis(k);
      answer := Found(x.signature(a.value));
    }

    /** The signature of a policy depends on all the policies connected to it, and all are recorded. */
    method PolicySignature(k: Path, s: Snapshot, ghost frames0: seq<Frame>) returns (answer: Answer<S>)
      requires SnapshotOk(x, s) && s.docs == docs && k in s.componentOf && frames == Recorded(frames0, {k}, map[])
      modifies `frames
      ensures answer == Found(x.policySignature(k, Restrict(docs, Members(x, docs, k))))
      ensures frames == RecordedTrace(frames0, Trace({k} + Members(x, docs, k), map[], {}, {k}, true))
    {
      var members := s.components[s.componentOf[k]];
      RecordedTwice(frames0, {k}, map[], Members(x, docs, k), map[]);
      Record(Elements(members), map[]);
      answer := Found(x.policySignature(k, Restrict(docs, Elements(members))));
    }
  }

  lemma NothingRecorded(frames: seq<Frame>)
    ensures frames == RecordedTrace(frames, NO_TRACE)
  {
    if frames != [] {
      var top := frames[|frames| - 1];
      assert top.functions + map[] == top.functions && top.docs + {} == top.docs;
      assert frames == frames[..|frames| - 1] + [top];
    }
  }

  // ---------------------------------------------------------------- whole histories

  /** Any history of edits, function types, resolvers and questions, starting with an empty store. */
  method Replay<A(!new), S(!new)>(x: Analyzer<A, S>, steps: seq<Step>) returns (answers: seq<Option<A>>)
    ensures |answers| == |steps|
    ensures forall i :: 0 <= i < |steps| && steps[i].Ask? ==>
      answers[i] == AnswerOf(x, After(x, steps[..i]), steps[i].p)
    ensures forall i :: 0 <= i < |steps| && steps[i].Ask? ==>
      (answers[i].Some? <==> exists d :: HasDoc(steps[..i], steps[i].p, d) && x.isGraph(d))
    ensures forall i, w :: 0 <= i < |steps| && steps[i].Ask? && WorldAfter(x, steps[..i], w) ==>
      && (RightAt(x, After(x, steps[..i]), steps[i].p) ==> answers[i] == FreshAnswer(x, w, steps[i].p))
      && (Reporting(x) && AllRight(x, steps[..i]) ==>
            (answers[i] == FreshAnswer(x, w, steps[i].p) <==> RightAt(x, After(x, steps[..i]), steps[i].p)))
  {
    var db := new Db<A, S>(x);
    answers := [];
    var i := 0;
    while i < |steps|
      invariant 0 <= i <= |steps| && |answers| == i && db.x == x
      invariant db.Valid() && db.stack == [] && db.frames == [] && db.History() == After(x, steps[..i])
      invariant forall j :: 0 <= j < i && steps[j].Ask? ==> answers[j] == AnswerOf(x, After(x, steps[..j]), steps[j].p)
    {
      assert steps[..i + 1][..i] == steps[..i];
      var answer := Perform(db, steps[i]);
      answers := answers + [answer];
      i := i + 1;
    }
    assert steps[..i] == steps;
    forall j | 0 <= j < |steps| && steps[j].Ask?
      ensures answers[j].Some? <==> exists d :: HasDoc(steps[..j], steps[j].p, d) && x.isGraph(d)
    {
      FoundAfter(x, steps[..j], steps[j].p);
    }
    forall j, w | 0 <= j < |steps| && steps[j].Ask? && WorldAfter(x, steps[..j], w)
      ensures RightAt(x, After(x, steps[..j]), steps[j].p) ==> answers[j] == FreshAnswer(x, w, steps[j].p)
      ensures Reporting(x) && AllRight(x, steps[..j]) ==>
        (answers[j] == FreshAnswer(x, w, steps[j].p) <==> RightAt(x, After(x, steps[..j]), steps[j].p))
    {
      AnswerAfter(x, steps[..j], w, steps[j].p);
    }
  }

  /** An answer in the world that the steps make up. */
  lemma AnswerAfter<A(!new), S(!new)>(x: Analyzer<A, S>, steps: seq<Step>, w: World, p: Path)
    requires WorldAfter(x, steps, w)
    ensures RightAt(x, After(x, steps), p) ==> AnswerOf(x, After(x, steps), p) == FreshAnswer(x, w, p)
    ensures Reporting(x) && AllRight(x, steps) ==>
      (AnswerOf(x, After(x, steps), p) == FreshAnswer(x, w, p) <==> RightAt(x, After(x, steps), p))
  {
    FreshAfter(x, steps, w, p);
    if RightAt(x, After(x, steps), p) {
      RightAnswerIsFresh(x, steps, p);
    }
    if Reporting(x) && AllRight(x, steps) {
      FreshAnswerIffRight(x, steps, p);
    }
  }

  method Perform<A(!new), S(!new)>(db: Db<A, S>, step: Step) returns (answer: Option<A>)
    requires db.Valid() && db.stack == [] && db.frames == []
    modifies db
    ensures db.Valid() && db.stack == [] && db.frames == [] && db.History() == Apply(db.x, old(db.History()), step)
    ensures step.Ask? ==> answer == AnswerOf(db.x, old(db.History()), step.p)
  {
    answer := None;
    match step
    case Put(p, d) => db.SetDocument(p, d);
    case Remove(p) => var existed := db.RemoveDocument(p);
    case Learn(k, t) => db.SetFunctionType(k, t);
    case SetResolver(r) => db.SetFunctionResolver(r);
    case Ask(p) =>
      assert Elements<Path>([]) == {};
      answer := db.GraphAnalysis(p);
  }
}
