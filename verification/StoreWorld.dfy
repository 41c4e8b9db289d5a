/**
 The world at a point of a history, read off the steps alone: a path has the document
 of the last step that names it, a function the type that it was given last, or else
 the type that the resolver in force gave when a question was first told it, and the
 last resolver set is in force.
 */
module StoreWorld {
  import opened PathOrder
  import opened Wrappers
  import opened ImportComponents
  import opened GraphAnalysis
  import opened AnalysisStore
  import opened StoreHistory

  // ---------------------------------------------------------------- documents

  predicate Edits(step: Step, p: Path) {
    (step.Put? || step.Remove?) && step.p == p
  }

  /** The last step that edits p puts document d there. */
  ghost predicate HasDoc(steps: seq<Step>, p: Path, d: nat) {
    exists i :: 0 <= i < |steps| && steps[i] == Put(p, d) && forall j :: i < j < |steps| ==> !Edits(steps[j], p)
  }

  lemma HasDocBefore(steps: seq<Step>, p: Path, d: nat)
    requires steps != []
    ensures var before, step := steps[..|steps| - 1], steps[|steps| - 1];
      HasDoc(steps, p, d) <==> if Edits(step, p) then step == Put(p, d) else HasDoc(before, p, d)
  {
    var n := |steps| - 1;
    var before := steps[..n];
    if HasDoc(before, p, d) && !Edits(steps[n], p) {
      var i :| 0 <= i < n && before[i] == Put(p, d) && forall j :: i < j < n ==> !Edits(before[j], p);
      assert steps[i] == Put(p, d);
      forall j | i < j < |steps|
        ensures !Edits(steps[j], p)
      {
        assert j < n ==> before[j] == steps[j];
      }
    }
    if HasDoc(steps, p, d) && !Edits(steps[n], p) {
      var i :| 0 <= i < |steps| && steps[i] == Put(p, d) && forall j :: i < j < |steps| ==> !Edits(steps[j], p);
      assert i < n && before[i] == Put(p, d);
      assert forall j :: i < j < n ==> before[j] == steps[j];
    }
  }

  /** A path has a document after some steps exactly if the last step that edits it put that one there. */
  lemma {:induction false} DocsAfter<A, S>(x: Analyzer<A, S>, steps: seq<Step>, p: Path, d: nat)
    ensures (p in After(x, steps).docs && After(x, steps).docs[p] == d) <==> HasDoc(steps, p, d)
  {
    if steps != [] {
      DocsAfter(x, steps[..|steps| - 1], p, d);
      HasDocBefore(steps, p, d);
    }
  }

  // ---------------------------------------------------------------- resolvers

  /** r was set last, or none was set and r is none. */
  ghost predicate InForce(steps: seq<Step>, r: Option<FunctionKey -> Resolved>) {
    || (r.None? && forall j :: 0 <= j < |steps| ==> !steps[j].SetResolver?)
    || exists i :: 0 <= i < |steps| && steps[i] == SetResolver(r) &&
         forall j :: i < j < |steps| ==> !steps[j].SetResolver?
  }

  lemma InForceBefore(steps: seq<Step>, r: Option<FunctionKey -> Resolved>)
    requires steps != []
    ensures var before, step := steps[..|steps| - 1], steps[|steps| - 1];
      InForce(steps, r) <==> if step.SetResolver? then step == SetResolver(r) else InForce(before, r)
  {
    var n := |steps| - 1;
    assert forall j :: 0 <= j < n ==> steps[..n][j] == steps[j];
  }

  /** The resolver after some steps is the one that was set last. */
  lemma {:induction false} ResolverAfter<A, S>(x: Analyzer<A, S>, steps: seq<Step>, r: Option<FunctionKey -> Resolved>)
    ensures After(x, steps).resolver == r <==> InForce(steps, r)
  {
    if steps != [] {
      InForceBefore(steps, r);
      ResolverAfter(x, steps[..|steps| - 1], r);
    }
  }

  // ---------------------------------------------------------------- function types

  /** The last step that gives k a type gives it t. */
  ghost predicate LearnedLast(steps: seq<Step>, k: FunctionKey, t: Resolved) {
    exists i :: 0 <= i < |steps| && steps[i] == Learn(k, t) &&
      forall j :: i < j < |steps| ==> !(steps[j].Learn? && steps[j].k == k)
  }

  ghost predicate NeverLearned(steps: seq<Step>, k: FunctionKey) {
    forall i :: 0 <= i < |steps| ==> !(steps[i].Learn? && steps[i].k == k)
  }

  /** The step after the given ones is a question that was told a type of k. */
  ghost predicate Told<A, S>(x: Analyzer<A, S>, before: seq<Step>, step: Step, k: FunctionKey) {
    && step.Ask? && IsGraph(x, After(x, before).docs, step.p)
    && ToldType(Asked(x, After(x, before), step.p).trace, k)
  }

  predicate ToldType(t: Trace, k: FunctionKey) {
    k in t.functions && t.functions[k].Some?
  }

  ghost predicate NeverTold<A, S>(x: Analyzer<A, S>, steps: seq<Step>, k: FunctionKey) {
    forall i :: 0 <= i < |steps| ==> !Told(x, steps[..i], steps[i], k)
  }

  ghost predicate ToldFirst<A, S>(x: Analyzer<A, S>, steps: seq<Step>, i: nat, k: FunctionKey) {
    i < |steps| && Told(x, steps[..i], steps[i], k) && NeverTold(x, steps[..i], k)
  }

  /** The first question that was told a type of k was told it by the resolver then in force. */
  ghost predicate FirstToldIs<A, S>(x: Analyzer<A, S>, steps: seq<Step>, k: FunctionKey, o: Option<Resolved>) {
    forall i: nat, r :: ToldFirst(x, steps, i, k) && InForce(steps[..i], Some(r)) ==> o == Some(r(k))
  }

  /** What is known of k: its last type, else what the resolver gave the first question that was told, else gives. */
  ghost predicate OutcomeAfter<A, S>(x: Analyzer<A, S>, steps: seq<Step>, k: FunctionKey, o: Option<Resolved>) {
    && (forall t :: LearnedLast(steps, k, t) ==> o == Some(t))
    && (NeverLearned(steps, k) ==>
          && FirstToldIs(x, steps, k, o)
          && (NeverTold(x, steps, k) ==>
                && (forall r :: InForce(steps, Some(r)) ==> o == Some(r(k)))
                && (InForce(steps, None) ==> o == None)))
  }

  // ---------------------------------------------------------------- what questions teach

  /** Types stay; those that are new come from the resolver and were told. */
  ghost predicate Taught(resolver: Option<FunctionKey -> Resolved>, types: map<FunctionKey, Resolved>,
      types': map<FunctionKey, Resolved>, t: Trace) {
    forall k ::
      && (k in types' <==> k in types || ToldType(t, k))
      && (k in types ==> types'[k] == types[k] && (k in t.functions ==> ToldType(t, k)))
      && (k in types' && k !in types ==> resolver.Some? && types'[k] == resolver.value(k))
  }

  lemma TaughtJoin(resolver: Option<FunctionKey -> Resolved>, types: map<FunctionKey, Resolved>,
      types': map<FunctionKey, Resolved>, types'': map<FunctionKey, Resolved>, a: Trace, b: Trace)
    requires Taught(resolver, types, types', a) && Taught(resolver, types', types'', b)
    ensures Taught(resolver, types, types'', Join(a, b))
  {
    forall k
      ensures k in types' <==> k in types || ToldType(a, k)
      ensures k in types'' <==> k in types' || ToldType(b, k)
    {
    }
  }

  lemma {:induction false} ServeTeaches<A, S>(b: Base<A, S>, m: Mem<A>, stack: set<Path>, p: Path)
    requires IsGraph(b.x, b.docs, p) && p !in stack
    ensures Taught(b.resolver, m.types, Serve(b, m, stack, p).mem.types, Serve(b, m, stack, p).trace)
    decreases Room(b.docs, stack), 0, 0
  {
    if !(p in m.cache && Hits(m.cache[p], b.docs, m.types)) {
      LessRoom(b.docs, stack, p);
      ServeRunTeaches(b, m, stack + {p}, b.docs[p], []);
      var r := ServeRun(b, m, stack + {p}, b.docs[p], []);
      TaughtJoin(b.resolver, m.types, m.types, r.mem.types, Trace({p}, map[], {}, {}, true), r.trace);
    }
  }

  lemma {:induction false} ServeRunTeaches<A, S>(b: Base<A, S>, m: Mem<A>, stack: set<Path>, d: nat,
      answers: seq<Answer<S>>)
    ensures Taught(b.resolver, m.types, ServeRun(b, m, stack, d, answers).mem.types,
                   ServeRun(b, m, stack, d, answers).trace)
    decreases Room(b.docs, stack), 2, b.x.limit(d) - |answers|
  {
    if Asks(b.x, d, answers) {
      var q := b.x.next(d, answers).value;
      var r := ServeReply(b, m, stack, q);
      ServeReplyTeaches(b, m, stack, q);
      ServeRunTeaches(b, r.mem, stack, d, answers + [r.answer]);
      var rest := ServeRun(b, r.mem, stack, d, answers + [r.answer]);
      TaughtJoin(b.resolver, m.types, r.mem.types, rest.mem.types, r.trace, rest.trace);
    }
  }

  lemma {:induction false} ServeReplyTeaches<A, S>(b: Base<A, S>, m: Mem<A>, stack: set<Path>, q: Query)
    ensures Taught(b.resolver, m.types, ServeReply(b, m, stack, q).mem.types, ServeReply(b, m, stack, q).trace)
    decreases Room(b.docs, stack), 1, 0
  {
    if q.AskSignature? && IsGraph(b.x, b.docs, q.path) && q.path !in stack {
      ServeTeaches(b, m, stack, q.path);
      var s := Serve(b, m, stack, q.path);
      TaughtJoin(b.resolver, m.types, m.types, s.mem.types, Trace({q.path}, map[], {q.path}, {}, true), s.trace);
    }
  }

  /** The types known after some steps: given last, or told to a question by the resolver then in force. */
  ghost predicate TypesAfter<A, S>(x: Analyzer<A, S>, steps: seq<Step>, k: FunctionKey) {
    var types := After(x, steps).mem.types;
    if k in types then
      && (forall t :: LearnedLast(steps, k, t) ==> types[k] == t)
      && (NeverLearned(steps, k) ==>
            && !NeverTold(x, steps, k)
            && FirstToldIs(x, steps, k, Some(types[k])))
    else NeverLearned(steps, k) && NeverTold(x, steps, k)
  }

  lemma Prefixes<T>(s: seq<T>)
    requires s != []
    ensures forall i :: 0 <= i < |s| - 1 ==> s[..|s| - 1][..i] == s[..i] && s[..|s| - 1][i] == s[i]
  {
  }

  lemma ToldBefore<A, S>(x: Analyzer<A, S>, steps: seq<Step>, k: FunctionKey)
    requires steps != []
    ensures var before, step := steps[..|steps| - 1], steps[|steps| - 1];
      NeverTold(x, steps, k) <==> NeverTold(x, before, k) && !Told(x, before, step, k)
  {
    Prefixes(steps);
  }

  lemma LearnedBefore(steps: seq<Step>, k: FunctionKey, t: Resolved)
    requires steps != []
    ensures var before, step := steps[..|steps| - 1], steps[|steps| - 1];
      && (LearnedLast(steps, k, t) <==> if step.Learn? && step.k == k then step.t == t else LearnedLast(before, k, t))
      && (NeverLearned(steps, k) <==> NeverLearned(before, k) && !(step.Learn? && step.k == k))
  {
    var n := |steps| - 1;
    var before := steps[..n];
    assert forall j :: 0 <= j < n ==> before[j] == steps[j];
    assert steps == before + [steps[n]];
  }

  lemma FirstToldStays<A, S>(x: Analyzer<A, S>, steps: seq<Step>, k: FunctionKey, o: Option<Resolved>)
    requires steps != [] && FirstToldIs(x, steps[..|steps| - 1], k, o) && !NeverTold(x, steps[..|steps| - 1], k)
    ensures FirstToldIs(x, steps, k, o) && !NeverTold(x, steps, k)
  {
    Prefixes(steps);
    ToldBefore(x, steps, k);
    forall i: nat | ToldFirst(x, steps, i, k)
      ensures ToldFirst(x, steps[..|steps| - 1], i, k) && steps[..|steps| - 1][..i] == steps[..i]
    {
      assert i < |steps| - 1;
    }
  }

  lemma FirstToldNow<A, S>(x: Analyzer<A, S>, steps: seq<Step>, k: FunctionKey, r: FunctionKey -> Resolved)
    requires steps != [] && NeverTold(x, steps[..|steps| - 1], k)
    requires After(x, steps[..|steps| - 1]).resolver == Some(r)
    ensures FirstToldIs(x, steps, k, Some(r(k)))
  {
    var before := steps[..|steps| - 1];
    forall i: nat, r' | ToldFirst(x, steps, i, k) && InForce(steps[..i], Some(r'))
      ensures r'(k) == r(k)
    {
      if i < |steps| - 1 {
        Prefixes(steps);
        assert false;
      }
      ResolverAfter(x, before, Some(r'));
    }
  }

  lemma {:induction false} TypesKnown<A, S>(x: Analyzer<A, S>, steps: seq<Step>, k: FunctionKey)
    ensures TypesAfter(x, steps, k)
  {
    if steps != [] {
      var n := |steps| - 1;
      TypesKnown(x, steps[..n], k);
      ToldBefore(x, steps, k);
      forall t
        ensures LearnedLast(steps, k, t) <==>
          if steps[n].Learn? && steps[n].k == k then steps[n].t == t else LearnedLast(steps[..n], k, t)
      {
        LearnedBefore(steps, k, t);
      }
      LearnedBefore(steps, k, Unresolved);
      if steps[n].Ask? {
        TypesAsked(x, steps, k);
      } else if !NeverTold(x, steps[..n], k) && k in After(x, steps[..n]).mem.types && NeverLearned(steps, k) {
        FirstToldStays(x, steps, k, Some(After(x, steps[..n]).mem.types[k]));
      }
    }
  }

  lemma TypesAsked<A, S>(x: Analyzer<A, S>, steps: seq<Step>, k: FunctionKey)
    requires steps != [] && steps[|steps| - 1].Ask? && TypesAfter(x, steps[..|steps| - 1], k)
    requires forall t :: LearnedLast(steps, k, t) <==> LearnedLast(steps[..|steps| - 1], k, t)
    requires NeverLearned(steps, k) <==> NeverLearned(steps[..|steps| - 1], k)
    ensures TypesAfter(x, steps, k)
  {
    var n := |steps| - 1;
    var before, step := steps[..n], steps[n];
    var h := After(x, before);
    ToldBefore(x, steps, k);
    if IsGraph(x, h.docs, step.p) {
      ServeTeaches(Base(x, h.docs, h.resolver), AtHand(h), {}, step.p);
    }
    if k in h.mem.types {
      if NeverLearned(steps, k) {
        FirstToldStays(x, steps, k, Some(h.mem.types[k]));
      }
    } else if k in After(x, steps).mem.types {
      FirstToldNow(x, steps, k, h.resolver.value);
    }
  }

  lemma ResolverUnique(steps: seq<Step>, r: Option<FunctionKey -> Resolved>)
    requires InForce(steps, r)
    ensures forall r' :: InForce(steps, r') ==> r' == r
  {
  }

  // ---------------------------------------------------------------- the world

  /** What is known of a function after some steps, exactly. */
  lemma OutcomeKnown<A, S>(x: Analyzer<A, S>, steps: seq<Step>, k: FunctionKey, o: Option<Resolved>)
    ensures OutcomeAfter(x, steps, k, o) <==> o == WorldOf(After(x, steps)).outcome(k)
  {
    TypesKnown(x, steps, k);
    if !NeverLearned(steps, k) {
      var t := LearnedSome(steps, k);
    } else if !NeverTold(x, steps, k) {
      var i := ToldSome(x, steps, k);
      OutcomeTold(x, steps, i, k, o);
    } else {
      OutcomeUntold(x, steps, k, o);
    }
  }

  lemma OutcomeTold<A, S>(x: Analyzer<A, S>, steps: seq<Step>, i: nat, k: FunctionKey, o: Option<Resolved>)
    requires TypesAfter(x, steps, k) && NeverLearned(steps, k) && ToldFirst(x, steps, i, k)
    ensures OutcomeAfter(x, steps, k, o) <==> o == WorldOf(After(x, steps)).outcome(k)
  {
    var r := ToldByResolver(x, steps, i, k);
    assert WorldOf(After(x, steps)).outcome(k) == Some(r(k));
  }

  lemma OutcomeUntold<A, S>(x: Analyzer<A, S>, steps: seq<Step>, k: FunctionKey, o: Option<Resolved>)
    requires TypesAfter(x, steps, k) && NeverLearned(steps, k) && NeverTold(x, steps, k)
    ensures OutcomeAfter(x, steps, k, o) <==> o == WorldOf(After(x, steps)).outcome(k)
  {
    var h := After(x, steps);
    ResolverAfter(x, steps, h.resolver);
    ResolverUnique(steps, h.resolver);
    if h.resolver.Some? {
      assert InForce(steps, Some(h.resolver.value));
    }
  }

  lemma {:induction false} LearnedSome(steps: seq<Step>, k: FunctionKey) returns (t: Resolved)
    requires !NeverLearned(steps, k)
    ensures LearnedLast(steps, k, t)
  {
    var n := |steps| - 1;
    if steps[n].Learn? && steps[n].k == k {
      t := steps[n].t;
    } else {
      LearnedBefore(steps, k, Unresolved);
      t := LearnedSome(steps[..n], k);
      LearnedBefore(steps, k, t);
    }
  }

  lemma {:induction false} ToldSome<A, S>(x: Analyzer<A, S>, steps: seq<Step>, k: FunctionKey) returns (i: nat)
    requires !NeverTold(x, steps, k)
    ensures ToldFirst(x, steps, i, k)
  {
    ToldBefore(x, steps, k);
    if NeverTold(x, steps[..|steps| - 1], k) {
      i := |steps| - 1;
    } else {
      i := ToldSome(x, steps[..|steps| - 1], k);
      Prefixes(steps);
    }
  }

  /** The first question that is told a type is told it by a resolver, if the function was never given one. */
  lemma ToldByResolver<A, S>(x: Analyzer<A, S>, steps: seq<Step>, i: nat, k: FunctionKey)
    returns (r: FunctionKey -> Resolved)
    requires NeverLearned(steps, k) && ToldFirst(x, steps, i, k)
    ensures InForce(steps[..i], Some(r))
  {
    var before := steps[..i];
    var h := After(x, before);
    TypesKnown(x, before, k);
    ResolverAfter(x, before, h.resolver);
    ServeTeaches(Base(x, h.docs, h.resolver), AtHand(h), {}, steps[i].p);
    r := h.resolver.value;
  }

  /** The documents and functions after some steps. */
  ghost predicate WorldAfter<A, S>(x: Analyzer<A, S>, steps: seq<Step>, w: World) {
    && (forall p, d :: HasDoc(steps, p, d) <==> p in w.docs && w.docs[p] == d)
    && forall k :: OutcomeAfter(x, steps, k, w.outcome(k))
  }

  /** There is one such world, and it is the one that questions are answered in. */
  lemma WorldKnown<A, S>(x: Analyzer<A, S>, steps: seq<Step>, w: World)
    ensures WorldAfter(x, steps, WorldOf(After(x, steps)))
    ensures WorldAfter(x, steps, w) ==>
      w.docs == After(x, steps).docs && forall k :: w.outcome(k) == WorldOf(After(x, steps)).outcome(k)
  {
    var docs := After(x, steps).docs;
    forall p, d
      ensures HasDoc(steps, p, d) <==> p in docs && docs[p] == d
    {
      DocsAfter(x, steps, p, d);
    }
    forall k, o
      ensures OutcomeAfter(x, steps, k, o) <==> o == WorldOf(After(x, steps)).outcome(k)
    {
      OutcomeKnown(x, steps, k, o);
    }
    if WorldAfter(x, steps, w) {
      forall p
        ensures DocAt(w.docs, p) == DocAt(docs, p)
      {
        assert p in w.docs ==> HasDoc(steps, p, w.docs[p]);
        assert p in docs ==> HasDoc(steps, p, docs[p]);
      }
      assert w.docs == docs by {
        assert forall p :: (p in w.docs <==> DocAt(w.docs, p).Some?) && (p in docs <==> DocAt(docs, p).Some?);
        assert forall p :: p in docs ==> DocAt(docs, p) == Some(docs[p]) && DocAt(w.docs, p) == Some(w.docs[p]);
      }
    }
  }

  /** The answer from scratch in the world after some steps. */
  lemma FreshAfter<A, S>(x: Analyzer<A, S>, steps: seq<Step>, w: World, p: Path)
    requires WorldAfter(x, steps, w)
    ensures FreshAnswer(x, w, p) == FreshAnswer(x, WorldOf(After(x, steps)), p)
  {
    var w' := WorldOf(After(x, steps));
    WorldKnown(x, steps, w);
    if IsGraph(x, w.docs, p) {
      FreshPinned(x, w', {}, w, {}, p);
    }
  }

  /** A question finds a graph exactly if the document that p has is one. */
  lemma FoundAfter<A, S>(x: Analyzer<A, S>, steps: seq<Step>, p: Path)
    ensures AnswerOf(x, After(x, steps), p).Some? <==> exists d :: HasDoc(steps, p, d) && x.isGraph(d)
  {
    var docs := After(x, steps).docs;
    forall d
      ensures HasDoc(steps, p, d) <==> p in docs && docs[p] == d
    {
      DocsAfter(x, steps, p, d);
    }
  }

  /** After a question only documents that are there have entries. */
  lemma EntriesAfterQuestion<A, S>(x: Analyzer<A, S>, steps: seq<Step>, p: Path, q: Path)
    requires q in After(x, steps + [Ask(p)]).mem.cache
    ensures exists d :: HasDoc(steps, q, d)
  {
    var h := After(x, steps);
    assert (steps + [Ask(p)])[..|steps|] == steps;
    HistoryPresent(x, steps);
    if IsGraph(x, h.docs, p) {
      ServeKeepsPresent(Base(x, h.docs, h.resolver), AtHand(h), {}, p);
    }
    DocsAfter(x, steps, q, h.docs[q]);
  }

  ghost predicate Present<A>(docs: map<Path, nat>, m: Mem<A>) {
    m.cache.Keys <= docs.Keys
  }

  lemma {:induction false} HistoryPresent<A, S>(x: Analyzer<A, S>, steps: seq<Step>)
    ensures Present(After(x, steps).docs, AtHand(After(x, steps)))
  {
    if steps != [] {
      var before, step := steps[..|steps| - 1], steps[|steps| - 1];
      var h := After(x, before);
      HistoryPresent(x, before);
      if step.Ask? && IsGraph(x, h.docs, step.p) {
        ServeKeepsPresent(Base(x, h.docs, h.resolver), AtHand(h), {}, step.p);
      }
    }
  }

  lemma {:induction false} ServeKeepsPresent<A, S>(b: Base<A, S>, m: Mem<A>, stack: set<Path>, p: Path)
    requires IsGraph(b.x, b.docs, p) && p !in stack && Present(b.docs, m)
    ensures Present(b.docs, Serve(b, m, stack, p).mem)
    decreases Room(b.docs, stack), 0, 0
  {
    if !(p in m.cache && Hits(m.cache[p], b.docs, m.types)) {
      LessRoom(b.docs, stack, p);
      ServeRunKeepsPresent(b, m, stack + {p}, b.docs[p], []);
    }
  }

  lemma {:induction false} ServeRunKeepsPresent<A, S>(b: Base<A, S>, m: Mem<A>, stack: set<Path>, d: nat,
      answers: seq<Answer<S>>)
    requires Present(b.docs, m)
    ensures Present(b.docs, ServeRun(b, m, stack, d, answers).mem)
    decreases Room(b.docs, stack), 2, b.x.limit(d) - |answers|
  {
    if Asks(b.x, d, answers) {
      var q := b.x.next(d, answers).value;
      var r := ServeReply(b, m, stack, q);
      if q.AskSignature? && IsGraph(b.x, b.docs, q.path) && q.path !in stack {
        ServeKeepsPresent(b, m, stack, q.path);
      }
      ServeRunKeepsPresent(b, r.mem, stack, d, answers + [r.answer]);
    }
  }
}
