/**
 What the analysis of a decision graph depends on. An analysis is an arbitrary
 deterministic program that asks for signatures of other decisions, for documents
 and for function types, each question depending on the answers so far. A graph
 that is already being analysed answers with a recursion marker; a policy answers
 for all the policies it is connected to by imports.
 */
module GraphAnalysis {
  import opened PathOrder
  import opened Wrappers
  import opened ImportComponents

  type FunctionKey = (nat, nat)

  datatype Resolved = Type(t: string) | Unresolved

  datatype Query = AskSignature(path: Path) | AskDocument(path: Path) | AskFunction(key: FunctionKey)

  /** Documents are immutable and identified by a number; a function that is not known answers None. */
  datatype Answer<+S> =
    | Found(s: S)
    | Recursive
    | Missing
    | Document(doc: Option<nat>)
    | Function(outcome: Option<Resolved>)

  /**
   next is the next question of the analysis of a document, None when it has
   finished; it asks at most limit questions, and signatures only of the decisions
   that the document mentions. A document that is no graph is a policy with imports.
   */
  datatype Analyzer<!A, !S> = Analyzer(
    isGraph: nat -> bool,
    imports: nat -> seq<Path>,
    decisions: nat -> set<Path>,
    next: (nat, seq<Answer<S>>) -> Option<Query>,
    limit: nat -> nat,
    finish: (nat, seq<Answer<S>>) -> A,
    signature: A -> S,
    policySignature: (Path, map<Path, nat>) -> S
  )

  ghost predicate Proper<A(!new), S(!new)>(x: Analyzer<A, S>) {
    forall d, answers {:trigger x.next(d, answers)} ::
      x.next(d, answers).Some? && x.next(d, answers).value.AskSignature? ==>
      x.next(d, answers).value.path in x.decisions(d)
  }

  /** The documents, and what is known of every function. */
  datatype World = World(docs: map<Path, nat>, outcome: FunctionKey -> Option<Resolved>)

  function DocAt(docs: map<Path, nat>, p: Path): Option<nat> {
    if p in docs then Some(docs[p]) else None
  }

  predicate IsGraph<A, S>(x: Analyzer<A, S>, docs: map<Path, nat>, p: Path) {
    p in docs && x.isGraph(docs[p])
  }

  // ---------------------------------------------------------------- policies

  function ParsedIn<A, S>(x: Analyzer<A, S>, docs: map<Path, nat>): Parsed {
    map p | p in docs && !x.isGraph(docs[p]) :: x.imports(docs[p])
  }

  /** The policies that p is connected to by imports. */
  ghost function Members<A, S>(x: Analyzer<A, S>, docs: map<Path, nat>, p: Path): set<Path> {
    ComponentOf(ParsedIn(x, docs), p)
  }

  function Restrict(docs: map<Path, nat>, paths: set<Path>): map<Path, nat> {
    map q | q in paths && q in docs :: docs[q]
  }

  // ---------------------------------------------------------------- analysis without a store

  /** What was read: documents and functions, graphs asked for, policies asked for. */
  datatype Reads = Reads(docs: set<Path>, functions: set<FunctionKey>, asked: set<Path>, policies: set<Path>)

  const NOTHING: Reads := Reads({}, {}, {}, {})

  function Both(a: Reads, b: Reads): Reads {
    Reads(a.docs + b.docs, a.functions + b.functions, a.asked + b.asked, a.policies + b.policies)
  }

  datatype Outcome<+A> = Outcome(analysis: A, read: Reads)

  datatype Reply<+S> = Reply(answer: Answer<S>, read: Reads)

  ghost function Room(docs: map<Path, nat>, stack: set<Path>): nat {
    |docs.Keys - stack|
  }

  lemma LessRoom(docs: map<Path, nat>, stack: set<Path>, p: Path)
    requires p in docs && p !in stack
    ensures Room(docs, stack + {p}) < Room(docs, stack)
  {
    assert docs.Keys - stack == (docs.Keys - (stack + {p})) + {p};
  }

  predicate Asks<A, S>(x: Analyzer<A, S>, d: nat, answers: seq<Answer<S>>) {
    |answers| < x.limit(d) && x.next(d, answers).Some?
  }

  /** A graph analysed from scratch while the graphs on the stack are being analysed. */
  ghost function Fresh<A, S>(x: Analyzer<A, S>, w: World, stack: set<Path>, p: Path): Outcome<A>
    requires IsGraph(x, w.docs, p) && p !in stack
    decreases Room(w.docs, stack), 0, 0
  {
    LessRoom(w.docs, stack, p);
    var r := Run(x, w, stack + {p}, w.docs[p], []);
    Outcome(r.analysis, Both(Reads({p}, {}, {}, {}), r.read))
  }

  /** The rest of an analysis after some answers. */
  ghost function Run<A, S>(x: Analyzer<A, S>, w: World, stack: set<Path>, d: nat, answers: seq<Answer<S>>): Outcome<A>
    decreases Room(w.docs, stack), 2, x.limit(d) - |answers|
  {
    if !Asks(x, d, answers) then Outcome(x.finish(d, answers), NOTHING)
    else
      var reply := ReplyTo(x, w, stack, x.next(d, answers).value);
      var rest := Run(x, w, stack, d, answers + [reply.answer]);
      Outcome(rest.analysis, Both(reply.read, rest.read))
  }

  ghost function ReplyTo<A, S>(x: Analyzer<A, S>, w: World, stack: set<Path>, q: Query): Reply<S>
    decreases Room(w.docs, stack), 1, 0
  {
    match q
    case AskDocument(p) => Reply(Document(DocAt(w.docs, p)), Reads({p}, {}, {}, {}))
    case AskFunction(k) => Reply(Function(w.outcome(k)), Reads({}, {k}, {}, {}))
    case AskSignature(p) =>
      if p !in w.docs then Reply(Missing, Reads({p}, {}, {}, {}))
      else if !x.isGraph(w.docs[p]) then
        var members := Members(x, w.docs, p);
        Reply(Found(x.policySignature(p, Restrict(w.docs, members))), Reads({p} + members, {}, {}, {p}))
      else if p in stack then Reply(Recursive, Reads({p}, {}, {p}, {}))
      else
        var r := Fresh(x, w, stack, p);
        Reply(Found(x.signature(r.analysis)), Both(Reads({p}, {}, {p}, {}), r.read))
  }

  // ---------------------------------------------------------------- what an analysis read determines it

  ghost predicate SameDocs(docs: map<Path, nat>, docs': map<Path, nat>, paths: set<Path>) {
    forall p :: p in paths ==> DocAt(docs, p) == DocAt(docs', p)
  }

  /**
   All that was read is the same: documents, absent ones included, functions, the
   policies connected to those that were asked for, and which of the graphs that
   were asked for are being analysed.
   */
  ghost predicate SameFor<A, S>(x: Analyzer<A, S>, w: World, stack: set<Path>, w': World, stack': set<Path>, r: Reads) {
    && SameDocs(w.docs, w'.docs, r.docs)
    && (forall k :: k in r.functions ==> w.outcome(k) == w'.outcome(k))
    && (forall k :: k in r.policies ==> Members(x, w'.docs, k) == Members(x, w.docs, k))
    && (forall k :: k in r.asked ==> (k in stack <==> k in stack'))
  }

  lemma SameForParts<A, S>(x: Analyzer<A, S>, w: World, stack: set<Path>, w': World, stack': set<Path>, a: Reads,
      b: Reads)
    ensures SameFor(x, w, stack, w', stack', Both(a, b)) <==>
      SameFor(x, w, stack, w', stack', a) && SameFor(x, w, stack, w', stack', b)
  {
  }

  /** An analysis comes out the same wherever all that it read is the same. */
  lemma {:induction false} FreshPinned<A, S>(x: Analyzer<A, S>, w: World, stack: set<Path>, w': World,
      stack': set<Path>, p: Path)
    requires IsGraph(x, w.docs, p) && p !in stack && p !in stack'
    requires SameFor(x, w, stack, w', stack', Fresh(x, w, stack, p).read)
    ensures IsGraph(x, w'.docs, p) && Fresh(x, w', stack', p) == Fresh(x, w, stack, p)
    decreases Room(w.docs, stack), 0, 0
  {
    LessRoom(w.docs, stack, p);
    var r := Run(x, w, stack + {p}, w.docs[p], []);
    assert Fresh(x, w, stack, p).read == Both(Reads({p}, {}, {}, {}), r.read);
    SameForParts(x, w, stack, w', stack', Reads({p}, {}, {}, {}), r.read);
    assert p in Reads({p}, {}, {}, {}).docs;
    RunPinned(x, w, stack + {p}, w', stack' + {p}, w.docs[p], []);
  }

  lemma {:induction false} RunPinned<A, S>(x: Analyzer<A, S>, w: World, stack: set<Path>, w': World, stack': set<Path>,
      d: nat, answers: seq<Answer<S>>)
    requires SameFor(x, w, stack, w', stack', Run(x, w, stack, d, answers).read)
    ensures Run(x, w', stack', d, answers) == Run(x, w, stack, d, answers)
    decreases Room(w.docs, stack), 2, x.limit(d) - |answers|
  {
    if Asks(x, d, answers) {
      var q := x.next(d, answers).value;
      var reply := ReplyTo(x, w, stack, q);
      SameForParts(x, w, stack, w', stack', reply.read, Run(x, w, stack, d, answers + [reply.answer]).read);
      ReplyPinned(x, w, stack, w', stack', q);
      RunPinned(x, w, stack, w', stack', d, answers + [reply.answer]);
    }
  }

  lemma {:induction false} ReplyPinned<A, S>(x: Analyzer<A, S>, w: World, stack: set<Path>, w': World,
      stack': set<Path>, q: Query)
    requires SameFor(x, w, stack, w', stack', ReplyTo(x, w, stack, q).read)
    ensures ReplyTo(x, w', stack', q) == ReplyTo(x, w, stack, q)
    decreases Room(w.docs, stack), 1, 0
  {
    match q
    case AskDocument(p) => assert p in ReplyTo(x, w, stack, q).read.docs;
    case AskFunction(k) => assert k in ReplyTo(x, w, stack, q).read.functions;
    case AskSignature(p) =>
      assert p in ReplyTo(x, w, stack, q).read.docs;
      assert DocAt(w.docs, p) == DocAt(w'.docs, p);
      if p in w.docs && !x.isGraph(w.docs[p]) {
        SamePolicy(x, w.docs, w'.docs, p);
      } else if p in w.docs && p !in stack {
        SameForParts(x, w, stack, w', stack', Reads({p}, {}, {p}, {}), Fresh(x, w, stack, p).read);
        assert p in Reads({p}, {}, {p}, {}).asked;
        FreshPinned(x, w, stack, w', stack', p);
      } else if p in w.docs {
        assert p in ReplyTo(x, w, stack, q).read.asked;
      }
  }

  lemma SamePolicy<A, S>(x: Analyzer<A, S>, docs: map<Path, nat>, docs': map<Path, nat>, p: Path)
    requires Members(x, docs', p) == Members(x, docs, p) && SameDocs(docs, docs', Members(x, docs, p))
    ensures Restrict(docs', Members(x, docs', p)) == Restrict(docs, Members(x, docs, p))
  {
    forall q | q in Members(x, docs, p)
      ensures q in docs && q in docs' && docs[q] == docs'[q]
    {
      assert DocAt(docs, q) == DocAt(docs', q);
    }
  }

  // ---------------------------------------------------------------- and nothing less does

  /** Nothing an analysis was told is lost in its result. */
  ghost predicate Reporting<A(!new), S(!new)>(x: Analyzer<A, S>) {
    && (forall d, a, b :: x.finish(d, a) == x.finish(d, b) ==> a == b)
    && (forall a, b :: x.signature(a) == x.signature(b) ==> a == b)
    && (forall p, m, m' :: x.policySignature(p, m) == x.policySignature(p, m') ==> m == m')
  }

  /** All the answers an analysis gets. */
  ghost function Transcript<A, S>(x: Analyzer<A, S>, w: World, stack: set<Path>, d: nat,
      answers: seq<Answer<S>>): (t: seq<Answer<S>>)
    ensures answers <= t && Run(x, w, stack, d, answers).analysis == x.finish(d, t)
    decreases x.limit(d) - |answers|
  {
    if !Asks(x, d, answers) then answers
    else Transcript(x, w, stack, d, answers + [ReplyTo(x, w, stack, x.next(d, answers).value).answer])
  }

  /** The i-th answer of t is the reply to the question asked after the answers before it. */
  ghost predicate RepliedAt<A, S>(x: Analyzer<A, S>, w: World, stack: set<Path>, d: nat, t: seq<Answer<S>>, i: nat) {
    && i < |t| && i < x.limit(d) && x.next(d, t[..i]).Some?
    && t[i] == ReplyTo(x, w, stack, x.next(d, t[..i]).value).answer
  }

  lemma {:induction false} TranscriptReplies<A, S>(x: Analyzer<A, S>, w: World, stack: set<Path>, d: nat,
      answers: seq<Answer<S>>)
    ensures var t := Transcript(x, w, stack, d, answers);
      && !Asks(x, d, t)
      && forall i :: |answers| <= i < |t| ==> RepliedAt(x, w, stack, d, t, i)
    decreases x.limit(d) - |answers|
  {
    if Asks(x, d, answers) {
      var more := answers + [ReplyTo(x, w, stack, x.next(d, answers).value).answer];
      TranscriptReplies(x, w, stack, d, more);
      var t := Transcript(x, w, stack, d, more);
      assert t[..|answers|] == answers && t[|answers|] == more[|answers|];
      assert RepliedAt(x, w, stack, d, t, |answers|);
    }
  }

  /** An analysis from scratch asks one question after the other until it has no more or has asked its limit. */
  lemma ScratchAnalysis<A, S>(x: Analyzer<A, S>, w: World, stack: set<Path>, p: Path) returns (told: seq<Answer<S>>)
    requires p in w.docs && x.isGraph(w.docs[p]) && p !in stack
    ensures Fresh(x, w, stack, p).analysis == x.finish(w.docs[p], told)
    ensures |told| >= x.limit(w.docs[p]) || x.next(w.docs[p], told).None?
    ensures forall i :: 0 <= i < |told| ==> RepliedAt(x, w, stack + {p}, w.docs[p], told, i)
  {
    LessRoom(w.docs, stack, p);
    told := Transcript(x, w, stack + {p}, w.docs[p], []);
    TranscriptReplies(x, w, stack + {p}, w.docs[p], []);
  }

  /**
   * It is told the document, the outcome of the function, that a graph is under analysis,
   * its signature, or the signature of all the policies connected to one.
   */
  lemma ScratchReplies<A, S>(x: Analyzer<A, S>, w: World, stack: set<Path>, k: Path, f: FunctionKey)
    ensures ReplyTo(x, w, stack, AskFunction(f)).answer == Function(w.outcome(f))
    ensures k in w.docs ==> ReplyTo(x, w, stack, AskDocument(k)).answer == Document(Some(w.docs[k]))
    ensures k !in w.docs ==> ReplyTo(x, w, stack, AskDocument(k)).answer == Document(None)
    ensures k !in w.docs ==> ReplyTo(x, w, stack, AskSignature(k)).answer == Missing
    ensures k in w.docs && x.isGraph(w.docs[k]) && k in stack ==>
      ReplyTo(x, w, stack, AskSignature(k)).answer == Recursive
    ensures k in w.docs && x.isGraph(w.docs[k]) && k !in stack ==>
      ReplyTo(x, w, stack, AskSignature(k)).answer == Found(x.signature(Fresh(x, w, stack, k).analysis))
    ensures k in w.docs && !x.isGraph(w.docs[k]) ==>
      ReplyTo(x, w, stack, AskSignature(k)).answer ==
      Found(x.policySignature(k, Restrict(w.docs, Members(x, w.docs, k))))
  {
  }

  /** The policies connected to p by imports, with their documents. */
  lemma ConnectedPolicies<A, S>(x: Analyzer<A, S>, docs: map<Path, nat>, p: Path)
    ensures var m := Restrict(docs, Members(x, docs, p));
      forall q ::
        && (q in m <==> q in docs && !x.isGraph(docs[q]) && Connected(ParsedIn(x, docs), p, q))
        && (q in m ==> m[q] == docs[q])
  {
  }

  /** The results of a reporting analysis are the same only if all that it read is. */
  lemma {:induction false} FreshTells<A(!new), S(!new)>(x: Analyzer<A, S>, w: World, stack: set<Path>, w': World,
      stack': set<Path>, p: Path)
    requires Reporting(x) && IsGraph(x, w.docs, p) && IsGraph(x, w'.docs, p) && p !in stack && p !in stack'
    requires SameDocs(w.docs, w'.docs, Fresh(x, w, stack, p).read.docs)
    requires Fresh(x, w', stack', p).analysis == Fresh(x, w, stack, p).analysis
    ensures SameFor(x, w, stack, w', stack', Fresh(x, w, stack, p).read)
    decreases Room(w.docs, stack), 0, 0
  {
    LessRoom(w.docs, stack, p);
    var r := Run(x, w, stack + {p}, w.docs[p], []);
    assert Fresh(x, w, stack, p).read == Both(Reads({p}, {}, {}, {}), r.read);
    assert DocAt(w.docs, p) == DocAt(w'.docs, p);
    RunTells(x, w, stack + {p}, w', stack' + {p}, w.docs[p], []);
    SameForParts(x, w, stack, w', stack', Reads({p}, {}, {}, {}), r.read);
  }

  lemma {:induction false} RunTells<A(!new), S(!new)>(x: Analyzer<A, S>, w: World, stack: set<Path>, w': World,
      stack': set<Path>, d: nat, answers: seq<Answer<S>>)
    requires Reporting(x) && SameDocs(w.docs, w'.docs, Run(x, w, stack, d, answers).read.docs)
    requires Run(x, w', stack', d, answers).analysis == Run(x, w, stack, d, answers).analysis
    ensures SameFor(x, w, stack, w', stack', Run(x, w, stack, d, answers).read)
    decreases Room(w.docs, stack), 2, x.limit(d) - |answers|
  {
    if Asks(x, d, answers) {
      var q := x.next(d, answers).value;
      var one, other := ReplyTo(x, w, stack, q), ReplyTo(x, w', stack', q);
      var t := Transcript(x, w, stack, d, answers + [one.answer]);
      var t' := Transcript(x, w', stack', d, answers + [other.answer]);
      assert t == t' && t[|answers|] == one.answer && t'[|answers|] == other.answer;
      ReplyTells(x, w, stack, w', stack', q);
      RunTells(x, w, stack, w', stack', d, answers + [one.answer]);
      SameForParts(x, w, stack, w', stack', one.read, Run(x, w, stack, d, answers + [one.answer]).read);
    }
  }

  lemma {:induction false} ReplyTells<A(!new), S(!new)>(x: Analyzer<A, S>, w: World, stack: set<Path>, w': World,
      stack': set<Path>, q: Query)
    requires Reporting(x) && SameDocs(w.docs, w'.docs, ReplyTo(x, w, stack, q).read.docs)
    requires ReplyTo(x, w', stack', q).answer == ReplyTo(x, w, stack, q).answer
    ensures SameFor(x, w, stack, w', stack', ReplyTo(x, w, stack, q).read)
    decreases Room(w.docs, stack), 1, 0
  {
    if q.AskSignature? {
      var p := q.path;
      assert p in ReplyTo(x, w, stack, q).read.docs;
      assert DocAt(w.docs, p) == DocAt(w'.docs, p);
      if p in w.docs && !x.isGraph(w.docs[p]) {
        TellsMembers(x, w.docs, w'.docs, p);
      } else if p in w.docs && p !in stack {
        FreshTells(x, w, stack, w', stack', p);
        SameForParts(x, w, stack, w', stack', Reads({p}, {}, {p}, {}), Fresh(x, w, stack, p).read);
      }
    }
  }

  /** So the result is the same exactly if all that was read is. */
  lemma FreshSameIff<A(!new), S(!new)>(x: Analyzer<A, S>, w: World, stack: set<Path>, w': World, stack': set<Path>,
      p: Path)
    requires Reporting(x) && IsGraph(x, w.docs, p) && IsGraph(x, w'.docs, p) && p !in stack && p !in stack'
    requires SameDocs(w.docs, w'.docs, Fresh(x, w, stack, p).read.docs)
    ensures Fresh(x, w', stack', p).analysis == Fresh(x, w, stack, p).analysis <==>
      SameFor(x, w, stack, w', stack', Fresh(x, w, stack, p).read)
  {
    if SameFor(x, w, stack, w', stack', Fresh(x, w, stack, p).read) {
      FreshPinned(x, w, stack, w', stack', p);
    } else if Fresh(x, w', stack', p).analysis == Fresh(x, w, stack, p).analysis {
      FreshTells(x, w, stack, w', stack', p);
    }
  }

  lemma TellsMembers<A, S>(x: Analyzer<A, S>, docs: map<Path, nat>, docs': map<Path, nat>, p: Path)
    requires Restrict(docs', Members(x, docs', p)) == Restrict(docs, Members(x, docs, p))
    ensures Members(x, docs', p) == Members(x, docs, p)
  {
    assert Restrict(docs, Members(x, docs, p)).Keys == Members(x, docs, p);
    assert Restrict(docs', Members(x, docs', p)).Keys == Members(x, docs', p);
  }

  // ---------------------------------------------------------------- without cyclic references

  /** rank decreases from every graph to the graphs it mentions. */
  ghost predicate Acyclic<A, S>(x: Analyzer<A, S>, docs: map<Path, nat>, rank: Path -> nat) {
    forall p, q :: IsGraph(x, docs, p) && IsGraph(x, docs, q) && q in x.decisions(docs[p]) ==> rank(q) < rank(p)
  }

  ghost predicate AllAbove(rank: Path -> nat, stack: set<Path>, bound: nat) {
    forall s :: s in stack ==> bound < rank(s)
  }

  ghost predicate AllBelow(rank: Path -> nat, asked: set<Path>, bound: nat) {
    forall q :: q in asked ==> rank(q) < bound
  }

  /**
   Where references have no cycle an analysis asks only for graphs below, also if it was
   made elsewhere on the same documents.
   */
  lemma {:induction false} AskedBelow<A(!new), S(!new)>(x: Analyzer<A, S>, w: World, docs': map<Path, nat>,
      rank: Path -> nat,
      stack: set<Path>, p: Path)
    requires Proper(x) && Acyclic(x, docs', rank) && IsGraph(x, w.docs, p) && p !in stack
    requires SameDocs(w.docs, docs', Fresh(x, w, stack, p).read.docs)
    ensures AllBelow(rank, Fresh(x, w, stack, p).read.asked, rank(p))
    decreases Room(w.docs, stack), 0, 0
  {
    LessRoom(w.docs, stack, p);
    var r := Run(x, w, stack + {p}, w.docs[p], []);
    assert Fresh(x, w, stack, p).read == Both(Reads({p}, {}, {}, {}), r.read);
    assert DocAt(w.docs, p) == DocAt(docs', p);
    RunAsksBelow(x, w, docs', rank, stack + {p}, p, []);
  }

  lemma {:induction false} RunAsksBelow<A(!new), S(!new)>(x: Analyzer<A, S>, w: World, docs': map<Path, nat>,
      rank: Path -> nat,
      stack: set<Path>, p: Path, answers: seq<Answer<S>>)
    requires Proper(x) && Acyclic(x, docs', rank) && IsGraph(x, w.docs, p) && IsGraph(x, docs', p) &&
      w.docs[p] == docs'[p]
    requires SameDocs(w.docs, docs', Run(x, w, stack, w.docs[p], answers).read.docs)
    ensures AllBelow(rank, Run(x, w, stack, w.docs[p], answers).read.asked, rank(p))
    decreases Room(w.docs, stack), 2, x.limit(w.docs[p]) - |answers|
  {
    var d := w.docs[p];
    if Asks(x, d, answers) {
      var q := x.next(d, answers).value;
      var reply := ReplyTo(x, w, stack, q);
      if q.AskSignature? && IsGraph(x, w.docs, q.path) {
        assert q.path in reply.read.docs && DocAt(w.docs, q.path) == DocAt(docs', q.path);
        assert q.path in x.decisions(d) && rank(q.path) < rank(p);
        if q.path !in stack {
          AskedBelow(x, w, docs', rank, stack, q.path);
        }
      }
      RunAsksBelow(x, w, docs', rank, stack, p, answers + [reply.answer]);
    }
  }

  /** Without cyclic references it makes no difference which graphs are under analysis. */
  lemma FreshAnyStack<A(!new), S(!new)>(x: Analyzer<A, S>, w: World, rank: Path -> nat, stack: set<Path>,
      stack': set<Path>, p: Path)
    requires Proper(x) && Acyclic(x, w.docs, rank) && IsGraph(x, w.docs, p)
    requires AllAbove(rank, stack, rank(p)) && AllAbove(rank, stack', rank(p))
    ensures p !in stack && p !in stack' && Fresh(x, w, stack, p) == Fresh(x, w, stack', p)
  {
    assert p !in stack && p !in stack';
    AskedBelow(x, w, w.docs, rank, stack, p);
    FreshPinned(x, w, stack, w, stack', p);
  }
}
