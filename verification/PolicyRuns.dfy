/**
 Runs of the blocks of a policy, one after the other. A block may run when the writers
 of what it then reads have run, or, in a topological run, the writers of all that it
 may read. If any two blocks, of which one writes at, above or below what the other
 one writes or reads, are ordered by what blocks demand, then all such runs agree.
 */
module PolicyRuns {
  import opened PathOrder
  import opened Wrappers
  import opened WriterIndex
  import opened PolicyStore
  import opened PolicyBlocks

  // ---------------------------------------------------------------- one block after the other

  /** The store, what the blocks that have run ended with, and what they picked. */
  datatype Stage<+V> = Stage(store: Store<V>, results: map<nat, Outcome<V>>, picks: map<nat, seq<Pick>>)

  function Begin<V>(a: Artifact<V>): Stage<V> {
    Stage(a.input, map[], map[])
  }

  /** The first error among the blocks, in order. */
  function FirstErrorOf<V>(results: map<nat, Outcome<V>>, blocks: seq<nat>): Option<string> {
    if blocks == [] then None
    else if blocks[0] in results && results[blocks[0]].Err? then Some(results[blocks[0]].error)
    else FirstErrorOf(results, blocks[1..])
  }

  /** The first error among the writers of the paths, in order. */
  function FirstError<V>(k: Shape, results: map<nat, Outcome<V>>, paths: seq<Path>): Option<string> {
    if paths == [] then None
    else
      match FirstErrorOf(results, WritersOf(k.writers, paths[0]))
      case Some(e) => Some(e)
      case None => FirstError(k, results, paths[1..])
  }

  /** The first error is that of the first block that has one. */
  lemma {:induction false} FirstErrorExactly<V>(results: map<nat, Outcome<V>>, blocks: seq<nat>, e: string)
    ensures FirstErrorOf(results, blocks) == Some(e) <==> exists i ::
      && 0 <= i < |blocks| && blocks[i] in results && results[blocks[i]] == Err(e)
      && forall j :: 0 <= j < i && blocks[j] in results ==> results[blocks[j]].Ok?
  {
    if blocks != [] && !(blocks[0] in results && results[blocks[0]].Err?) {
      FirstErrorExactly(results, blocks[1..], e);
      assert blocks == [blocks[0]] + blocks[1..];
      forall i | 1 <= i < |blocks|
        ensures blocks[1..][i - 1] == blocks[i]
      {
      }
    }
  }

  /** Paths come one after the other, and their writers in the order of the index. */
  lemma {:induction false} FirstErrorInOrder<V>(k: Shape, results: map<nat, Outcome<V>>, paths: seq<Path>, p: Path)
    ensures FirstError(k, results, []) == None
    ensures FirstError(k, results, paths + [p]) ==
      if FirstError(k, results, paths).Some? then FirstError(k, results, paths)
      else FirstErrorOf(results, WritersOf(k.writers, p))
  {
    if paths == [] {
      assert ([p] + [])[1..] == [] && paths + [p] == [p];
    } else {
      assert (paths + [p])[1..] == paths[1..] + [p];
      FirstErrorInOrder(k, results, paths[1..], p);
    }
  }

  /** The selection of b after what it always reads. */
  function Chosen<V>(a: Artifact<V>, st: Stage<V>, b: nat): Fallible<Option<seq<Pick>>> {
    var always := Always(a.shape, b);
    match FirstError(a.shape, st.results, always)
    case Some(e) => Err(e)
    case None => Selected(a, b, ViewOf(st.store, always))
  }

  function PicksAt<V>(a: Artifact<V>, st: Stage<V>, b: nat): seq<Pick> {
    if b !in a.shape.rules then IDLE
    else
      var chosen := Chosen(a, st, b);
      if chosen.Ok? && chosen.value.Some? && chosen.value.value != [] then chosen.value.value else IDLE
  }

  function AfterPicks<V>(a: Artifact<V>, st: Stage<V>, b: nat, picks: seq<Pick>): Outcome<V> {
    var always, demanded := Always(a.shape, b), DemandedBy(a.shape, b, picks);
    match FirstError(a.shape, st.results, demanded)
    case Some(e) => Err(e)
    case None => Committing(a, b, picks, ViewOf(st.store, always + demanded))
  }

  function ResultAt<V>(a: Artifact<V>, st: Stage<V>, b: nat): Outcome<V> {
    if b !in a.shape.rules then Ok(None)
    else
      match Chosen(a, st, b)
      case Err(e) => Err(e)
      case Ok(None) => Ok(None)
      case Ok(Some(picks)) => AfterPicks(a, st, b, picks)
  }

  function Wrote<V>(o: Outcome<V>): Writes<V> {
    if o.Ok? && o.value.Some? then o.value.value else []
  }

  /** The stage with the turn of b. */
  function Turn<V>(st: Stage<V>, b: nat, picks: seq<Pick>, result: Outcome<V>): Stage<V> {
    Stage(Apply(st.store, Wrote(result)), st.results[b := result], st.picks[b := picks])
  }

  function After<V>(a: Artifact<V>, st: Stage<V>, b: nat): Stage<V> {
    Turn(st, b, PicksAt(a, st, b), ResultAt(a, st, b))
  }

  /** All blocks of the order, whether there are errors or not. */
  function Runs<V>(a: Artifact<V>, st: Stage<V>, order: seq<nat>): Stage<V>
    decreases |order|
  {
    if order == [] then st else Runs(a, After(a, st, order[0]), order[1..])
  }

  /** Blocks run one after the other. */
  lemma {:induction false} RunsInOrder<V>(a: Artifact<V>, st: Stage<V>, order: seq<nat>, b: nat)
    ensures Runs(a, st, []) == st && Runs(a, st, order + [b]) == After(a, Runs(a, st, order), b)
    decreases |order|
  {
    if order == [] {
      assert (order + [b])[1..] == [];
    } else {
      assert (order + [b])[1..] == order[1..] + [b];
      RunsInOrder(a, After(a, st, order[0]), order[1..], b);
    }
  }

  /** The turn of a block writes what it gives, if anything. */
  lemma TurnExactly<V>(a: Artifact<V>, st: Stage<V>, b: nat)
    ensures After(a, st, b).results == st.results[b := ResultAt(a, st, b)]
    ensures After(a, st, b).store == match ResultAt(a, st, b) {
      case Ok(Some(ws)) => Apply(st.store, ws)
      case _ => st.store
    }
  {
  }

  /**
   It gives nothing without a rule, and the error of a writer of an unconditional read if
   there is one. Otherwise it picks on what it sees at its unconditional reads, and
   computes on what it sees at all its reads, unless a writer of these has an error.
   */
  lemma ResultExactly<V(!new)>(a: Artifact<V>, st: Stage<V>, b: nat)
    ensures b !in a.shape.rules ==> ResultAt(a, st, b) == Ok(None)
    ensures b in a.shape.rules ==>
      match FirstError(a.shape, st.results, Always(a.shape, b))
      case Some(e) => ResultAt(a, st, b) == Err(e)
      case None => TurnGives(a, st, b, ResultAt(a, st, b))
  {
    if b in a.shape.rules && FirstError(a.shape, st.results, Always(a.shape, b)).None? {
      SelectionGives(a, st, b);
    }
  }

  lemma SelectionGives<V(!new)>(a: Artifact<V>, st: Stage<V>, b: nat)
    requires b in a.shape.rules && FirstError(a.shape, st.results, Always(a.shape, b)).None?
    ensures TurnGives(a, st, b, ResultAt(a, st, b))
  {
    var view := ViewOf(st.store, Always(a.shape, b));
    SelectedExactly(a, b, view);
    match Selected(a, b, view)
    case Err(_) =>
    case Ok(None) =>
    case Ok(Some(picks)) => PicksGive(a, st, b, picks);
  }

  lemma PicksGive<V(!new)>(a: Artifact<V>, st: Stage<V>, b: nat, picks: seq<Pick>)
    requires PicksFrom(a, b, picks, ViewOf(st.store, Always(a.shape, b)))
    ensures TurnGives(a, st, b, AfterPicks(a, st, b, picks))
  {
    var paths := Always(a.shape, b) + DemandedBy(a.shape, b, picks);
    var vs := CommittedExactly(a, b, picks, ViewOf(st.store, paths));
    if FirstError(a.shape, st.results, DemandedBy(a.shape, b, picks)).None? {
      assert AfterPicks(a, st, b, picks).Ok? ==> GivesValues(a, st, b, picks, vs);
      assert AfterPicks(a, st, b, picks).Err? ==> GivesError(a, st, b, picks, vs, AfterPicks(a, st, b, picks).error);
    }
  }

  /** What a block with a rule ends with if no writer of its unconditional reads has an error. */
  ghost predicate TurnGives<V(!new)>(a: Artifact<V>, st: Stage<V>, b: nat, o: Outcome<V>) {
    var always := Always(a.shape, b);
    var view := map p | p in always :: Get(st.store, p);
    match o
    case Ok(None) => a.shape.iterated(b) && a.instances(b, view).None?
    case Ok(Some(ws)) => exists picks, vs ::
      PicksFrom(a, b, picks, view) && FirstError(a.shape, st.results, DemandedBy(a.shape, b, picks)).None? &&
      GivesValues(a, st, b, picks, vs) && ws == a.spread(b, vs)
    case Err(e) => SelectFails(a, b, e, view) || exists picks ::
      PicksFrom(a, b, picks, view) &&
      (FirstError(a.shape, st.results, DemandedBy(a.shape, b, picks)) == Some(e) || exists vs ::
        GivesError(a, st, b, picks, vs, e))
  }

  ghost predicate GivesValues<V>(a: Artifact<V>, st: Stage<V>, b: nat, picks: seq<Pick>, vs: seq<V>) {
    var paths := Always(a.shape, b) + DemandedBy(a.shape, b, picks);
    ValuesFrom(a, b, picks, vs, map p | p in paths :: Get(st.store, p))
  }

  ghost predicate GivesError<V>(a: Artifact<V>, st: Stage<V>, b: nat, picks: seq<Pick>, vs: seq<V>, e: string) {
    var paths := Always(a.shape, b) + DemandedBy(a.shape, b, picks);
    CommitFails(a, b, picks, vs, e, map p | p in paths :: Get(st.store, p))
  }

  // ---------------------------------------------------------------- what is demanded

  /** What blocks pick: anything they can pick, or these picks. */
  datatype Choice = Any | These(picks: nat -> seq<Pick>)

  ghost predicate ReadBy(k: Shape, c: Choice, b: nat, p: Path) {
    match c
    case Any => MayRead(k, b, p)
    case These(picks) => p in Reads(k, b, picks(b))
  }

  /** Block w writes something that b demands. */
  ghost predicate Demands(k: Shape, c: Choice, b: nat, w: nat) {
    exists p :: ReadBy(k, c, b, p) && w in WritersOf(k.writers, p)
  }

  /** The blocks of D demand blocks of D only. */
  ghost predicate Closed(k: Shape, c: Choice, D: set<nat>) {
    forall b, w :: b in D && Demands(k, c, b, w) ==> w in D
  }

  /** What b demands is in D. */
  ghost predicate NeedsIn(k: Shape, c: Choice, b: nat, D: set<nat>) {
    forall w :: Demands(k, c, b, w) ==> w in D
  }

  /** w is among what b demands, what that demands, and so on. */
  ghost predicate Leads(k: Shape, c: Choice, b: nat, w: nat) {
    forall D: set<nat> :: Closed(k, c, D) && NeedsIn(k, c, b, D) ==> w in D
  }

  /** Block b writes at, above or below what w writes or reads. */
  ghost predicate Conflict(k: Shape, c: Choice, b: nat, w: nat) {
    exists p, q :: p in WritesOf(k, b) && (q in WritesOf(k, w) || ReadBy(k, c, w, q)) && Related(p, q)
  }

  /** Conflicting blocks are ordered by what blocks demand. */
  ghost predicate Ordered(k: Shape, c: Choice) {
    forall b, w :: b != w && Conflict(k, c, b, w) ==> Leads(k, c, b, w) || Leads(k, c, w, b)
  }

  ghost predicate Possible(k: Shape, c: Choice) {
    c.These? ==> forall b :: CanPick(k, b, c.picks(b))
  }

  /**
   For topological runs (may), conflicting blocks have to be ordered by what they may
   demand; for runs on demand, by what they demand whatever is picked.
   */
  ghost predicate Orderly(k: Shape, may: bool) {
    if may then Ordered(k, Any) else forall c: Choice :: c.These? && Possible(k, c) ==> Ordered(k, c)
  }

  // ---------------------------------------------------------------- blocks that may run

  function Only(picks: seq<Pick>): nat -> seq<Pick> {
    (b: nat) => picks
  }

  ghost function ChoiceOf(may: bool, picks: nat -> seq<Pick>): Choice {
    if may then Any else These(picks)
  }

  /** Block b has not run, and the writers of what it reads with these picks have. */
  ghost predicate Fed<V>(k: Shape, may: bool, st: Stage<V>, b: nat, mine: seq<Pick>) {
    b !in st.results && NeedsIn(k, ChoiceOf(may, Only(mine)), b, st.results.Keys)
  }

  ghost predicate Ready<V>(a: Artifact<V>, may: bool, st: Stage<V>, b: nat) {
    Fed(a.shape, may, st, b, PicksAt(a, st, b))
  }

  /** Every block of the order may run at its turn. */
  ghost predicate Safe<V>(a: Artifact<V>, may: bool, st: Stage<V>, order: seq<nat>)
    decreases |order|
  {
    order == [] || (Ready(a, may, st, order[0]) && Safe(a, may, After(a, st, order[0]), order[1..]))
  }

  /** The picks of the blocks that have run. */
  function PicksOf<V>(st: Stage<V>): nat -> seq<Pick> {
    (b: nat) => if b in st.picks then st.picks[b] else IDLE
  }

  /** The blocks that have run could run: their picks are possible, and what they demand has run. */
  ghost predicate Settled<V>(a: Artifact<V>, may: bool, st: Stage<V>) {
    && st.picks.Keys == st.results.Keys && Possible(a.shape, These(PicksOf(st)))
    && Closed(a.shape, ChoiceOf(may, PicksOf(st)), st.results.Keys)
  }

  lemma PicksAtCan<V>(a: Artifact<V>, st: Stage<V>, b: nat)
    ensures CanPick(a.shape, b, PicksAt(a, st, b))
  {
    IdleReads(a.shape, b);
    var chosen := Chosen(a, st, b);
    if b in a.shape.rules && chosen.Ok? && chosen.value.Some? && chosen.value.value != [] {
      SelectedCanPick(a, b, ViewOf(st.store, Always(a.shape, b)));
    }
  }

  lemma BeginSettled<V>(a: Artifact<V>, may: bool)
    ensures Settled(a, may, Begin(a))
  {
    forall b
      ensures CanPick(a.shape, b, IDLE)
    {
      IdleReads(a.shape, b);
    }
  }

  /** Demands depend on the picks of the block only. */
  lemma SameDemands(k: Shape, may: bool, picks: nat -> seq<Pick>, picks': nat -> seq<Pick>, b: nat)
    requires picks(b) == picks'(b)
    ensures forall p :: ReadBy(k, ChoiceOf(may, picks), b, p) <==> ReadBy(k, ChoiceOf(may, picks'), b, p)
    ensures forall w :: Demands(k, ChoiceOf(may, picks), b, w) <==> Demands(k, ChoiceOf(may, picks'), b, w)
  {
    forall p
      ensures ReadBy(k, ChoiceOf(may, picks), b, p) <==> ReadBy(k, ChoiceOf(may, picks'), b, p)
    {
    }
  }

  lemma AfterSettled<V>(a: Artifact<V>, may: bool, st: Stage<V>, b: nat)
    requires Settled(a, may, st) && Ready(a, may, st, b)
    ensures Settled(a, may, After(a, st, b))
  {
    var st', k := After(a, st, b), a.shape;
    PicksAtCan(a, st, b);
    assert forall x :: PicksOf(st')(x) == if x == b then PicksAt(a, st, b) else PicksOf(st)(x);
    forall x, w | x in st'.results.Keys && Demands(k, ChoiceOf(may, PicksOf(st')), x, w)
      ensures w in st'.results.Keys
    {
      if x == b {
        SameDemands(k, may, PicksOf(st'), Only(PicksAt(a, st, b)), x);
      } else {
        SameDemands(k, may, PicksOf(st'), PicksOf(st), x);
      }
    }
  }

  // ---------------------------------------------------------------- orders that do not depend on what blocks see

  /** Every block of the order comes after what it demands; done comes before the order. */
  ghost predicate Topological(k: Shape, c: Choice, done: set<nat>, order: seq<nat>)
    decreases |order|
  {
    order == [] ||
    (order[0] !in done && NeedsIn(k, c, order[0], done) && Topological(k, c, done + {order[0]}, order[1..]))
  }

  /** What blocks demand is among what they may demand. */
  lemma ActualNeeds(k: Shape, may: bool, picks: nat -> seq<Pick>, b: nat, D: set<nat>)
    requires CanPick(k, b, picks(b)) && NeedsIn(k, Any, b, D)
    ensures NeedsIn(k, ChoiceOf(may, picks), b, D)
  {
    forall w | Demands(k, ChoiceOf(may, picks), b, w)
      ensures w in D
    {
      var p :| ReadBy(k, ChoiceOf(may, picks), b, p) && w in WritersOf(k.writers, p);
      if !may {
        ReadsAreMayReads(k, b, picks(b), p);
      }
      assert ReadBy(k, Any, b, p);
      assert Demands(k, Any, b, w);
    }
  }

  /** An order in which every block comes after all it may demand can be run, whatever blocks compute. */
  lemma {:induction false} TopologicalIsSafe<V>(a: Artifact<V>, may: bool, st: Stage<V>, order: seq<nat>)
    requires Topological(a.shape, Any, st.results.Keys, order)
    ensures Safe(a, may, st, order)
    decreases |order|
  {
    if order != [] {
      var b := order[0];
      PicksAtCan(a, st, b);
      ActualNeeds(a.shape, may, Only(PicksAt(a, st, b)), b, st.results.Keys);
      assert After(a, st, b).results.Keys == st.results.Keys + {b};
      TopologicalIsSafe(a, may, After(a, st, b), order[1..]);
    }
  }

  /** rank is a dependency order: what a block may demand is written by blocks of lower rank. */
  ghost predicate Acyclic(k: Shape, rank: nat -> nat) {
    forall b, w :: Demands(k, Any, b, w) ==> rank(w) < rank(b)
  }

  lemma {:induction false} Lowest(rank: nat -> nat, S: set<nat>) returns (b: nat)
    requires S != {}
    ensures b in S && forall x :: x in S ==> rank(b) <= rank(x)
  {
    b :| b in S;
    if S != {b} {
      var x := Lowest(rank, S - {b});
      b := if rank(x) < rank(b) then x else b;
    }
  }

  /** What blocks demand is below them, whatever they pick. */
  lemma DemandsBelow(k: Shape, c: Choice, rank: nat -> nat, b: nat, w: nat)
    requires Acyclic(k, rank) && Possible(k, c) && Demands(k, c, b, w)
    ensures rank(w) < rank(b)
  {
    var p :| ReadBy(k, c, b, p) && w in WritersOf(k.writers, p);
    if c.These? {
      ReadsAreMayReads(k, b, c.picks(b), p);
    }
    assert ReadBy(k, Any, b, p);
    assert Demands(k, Any, b, w);
  }

  /** Without cyclic demands blocks can be put into an order. */
  lemma {:induction false} OrderExists(k: Shape, c: Choice, rank: nat -> nat, done: set<nat>, S: set<nat>)
    returns (order: seq<nat>)
    requires Acyclic(k, rank) && Possible(k, c) && done !! S
    requires forall b :: b in S ==> NeedsIn(k, c, b, done + S)
    ensures Topological(k, c, done, order) && Elements(order) == S
    decreases |S|
  {
    if S == {} {
      order := [];
    } else {
      var b := Lowest(rank, S);
      LowestIsNext(k, c, rank, done, S, b);
      MoveOne(done, S, b);
      var rest := OrderExists(k, c, rank, done + {b}, S - {b});
      order := [b] + rest;
      ConsOrder(b, rest);
    }
  }

  lemma MoveOne(done: set<nat>, S: set<nat>, b: nat)
    requires done !! S && b in S
    ensures done + {b} + (S - {b}) == done + S && (done + {b}) !! (S - {b}) && {b} + (S - {b}) == S && |S - {b}| < |S|
  {
  }

  lemma LowestIsNext(k: Shape, c: Choice, rank: nat -> nat, done: set<nat>, S: set<nat>, b: nat)
    requires Acyclic(k, rank) && Possible(k, c) && b in S && forall x :: x in S ==> rank(b) <= rank(x)
    requires NeedsIn(k, c, b, done + S)
    ensures NeedsIn(k, c, b, done)
  {
    forall w | Demands(k, c, b, w)
      ensures w in done
    {
      DemandsBelow(k, c, rank, b, w);
    }
  }

  lemma ConsOrder(b: nat, rest: seq<nat>)
    ensures ([b] + rest)[0] == b && ([b] + rest)[1..] == rest && Elements([b] + rest) == {b} + Elements(rest)
  {
  }

  lemma {:induction false} TopologicalBoth(k: Shape, c: Choice, done: set<nat>, order: seq<nat>, more: seq<nat>)
    requires Topological(k, c, done, order) && Topological(k, c, done + Elements(order), more)
    ensures Topological(k, c, done, order + more)
    decreases |order|
  {
    if order == [] {
      assert order + more == more && done + Elements(order) == done;
    } else {
      assert (order + more)[0] == order[0] && (order + more)[1..] == order[1..] + more;
      assert done + {order[0]} + Elements(order[1..]) == done + Elements(order);
      TopologicalBoth(k, c, done + {order[0]}, order[1..], more);
    }
  }

  // ---------------------------------------------------------------- a turn depends on what it reads

  /** Both stages show the same at the paths, and their writers ended the same. */
  ghost predicate SeesSame<V>(k: Shape, st: Stage<V>, st': Stage<V>, paths: seq<Path>) {
    forall p :: p in paths ==>
      && Get(st.store, p) == Get(st'.store, p)
      && forall w :: w in WritersOf(k.writers, p) ==>
        (w in st.results <==> w in st'.results) && (w in st.results ==> st.results[w] == st'.results[w])
  }

  lemma {:induction false} SameErrorOf<V>(r: map<nat, Outcome<V>>, r': map<nat, Outcome<V>>, blocks: seq<nat>)
    requires forall w :: w in blocks ==> (w in r <==> w in r') && (w in r ==> r[w] == r'[w])
    ensures FirstErrorOf(r, blocks) == FirstErrorOf(r', blocks)
  {
    if blocks != [] {
      SameErrorOf(r, r', blocks[1..]);
    }
  }

  lemma {:induction false} SameError<V>(k: Shape, st: Stage<V>, st': Stage<V>, paths: seq<Path>)
    requires SeesSame(k, st, st', paths)
    ensures FirstError(k, st.results, paths) == FirstError(k, st'.results, paths)
  {
    if paths != [] {
      assert paths[0] in paths;
      SameErrorOf(st.results, st'.results, WritersOf(k.writers, paths[0]));
      SameError(k, st, st', paths[1..]);
    }
  }

  /** The selection sees what the block always reads. */
  lemma SameChosen<V>(a: Artifact<V>, st: Stage<V>, st': Stage<V>, b: nat)
    requires SeesSame(a.shape, st, st', Always(a.shape, b))
    ensures Chosen(a, st, b) == Chosen(a, st', b) && PicksAt(a, st, b) == PicksAt(a, st', b)
  {
    SameError(a.shape, st, st', Always(a.shape, b));
    SameView(st.store, st'.store, Always(a.shape, b));
  }

  /** The commit sees what the block always reads and what it picks. */
  lemma SameAfterPicks<V>(a: Artifact<V>, st: Stage<V>, st': Stage<V>, b: nat, picks: seq<Pick>)
    requires SeesSame(a.shape, st, st', Always(a.shape, b) + DemandedBy(a.shape, b, picks))
    ensures AfterPicks(a, st, b, picks) == AfterPicks(a, st', b, picks)
  {
    var seen := Always(a.shape, b) + DemandedBy(a.shape, b, picks);
    assert forall p :: p in DemandedBy(a.shape, b, picks) ==> p in seen;
    SameError(a.shape, st, st', DemandedBy(a.shape, b, picks));
    SameView(st.store, st'.store, seen);
  }

  /** What is picked reads the same as what counts as picked. */
  lemma ChosenReads<V>(a: Artifact<V>, st: Stage<V>, b: nat)
    requires b in a.shape.rules && Chosen(a, st, b).Ok? && Chosen(a, st, b).value.Some?
    ensures Reads(a.shape, b, PicksAt(a, st, b)) ==
            Always(a.shape, b) + DemandedBy(a.shape, b, Chosen(a, st, b).value.value)
  {
    IdleReads(a.shape, b);
  }

  lemma SameTurn<V>(a: Artifact<V>, st: Stage<V>, st': Stage<V>, b: nat)
    requires SeesSame(a.shape, st, st', Reads(a.shape, b, PicksAt(a, st, b)))
    ensures PicksAt(a, st, b) == PicksAt(a, st', b) && ResultAt(a, st, b) == ResultAt(a, st', b)
  {
    if b in a.shape.rules {
      var seen := Reads(a.shape, b, PicksAt(a, st, b));
      assert forall p :: p in Always(a.shape, b) ==> p in seen;
      SameChosen(a, st, st', b);
      var chosen := Chosen(a, st, b);
      if chosen.Ok? && chosen.value.Some? {
        ChosenReads(a, st, b);
        SameAfterPicks(a, st, st', b, chosen.value.value);
      }
    }
  }

  lemma WroteDeclared<V(!new)>(a: Artifact<V>, st: Stage<V>, b: nat)
    requires Declares(a)
    ensures forall i :: 0 <= i < |Wrote(ResultAt(a, st, b))| ==> Wrote(ResultAt(a, st, b))[i].0 in WritesOf(a.shape, b)
  {
  }

  /** A block that writes nothing near the paths, and is no writer of them, does not change what they show. */
  lemma PassingBy<V(!new)>(a: Artifact<V>, st: Stage<V>, y: nat, paths: seq<Path>)
    requires Declares(a) && forall p :: p in paths ==> y !in WritersOf(a.shape.writers, p)
    requires forall p, q :: p in WritesOf(a.shape, y) && q in paths ==> !Related(p, q)
    ensures SeesSame(a.shape, st, After(a, st, y), paths)
  {
    var ws := Wrote(ResultAt(a, st, y));
    WroteDeclared(a, st, y);
    forall p | p in paths
      ensures Get(st.store, p) == Get(After(a, st, y).store, p)
    {
      ApplyElsewhere(st.store, ws, p);
    }
  }

  // ---------------------------------------------------------------- two blocks that may run

  /** Neither block writes at, above or below what the other one writes or reads, nor is a writer of that. */
  ghost predicate Apart<V>(a: Artifact<V>, st: Stage<V>, b: nat, y: nat) {
    var k := a.shape;
    && (forall p, q :: p in WritesOf(k, b) && q in WritesOf(k, y) ==> !Related(p, q))
    && Away(k, b, Reads(k, y, PicksAt(a, st, y))) && Away(k, y, Reads(k, b, PicksAt(a, st, b)))
  }

  ghost predicate Away(k: Shape, b: nat, paths: seq<Path>) {
    forall q :: q in paths ==> b !in WritersOf(k.writers, q) && forall p :: p in WritesOf(k, b) ==> !Related(p, q)
  }

  /** Actual reads are among those of the choice. */
  lemma ActualReads(k: Shape, may: bool, picks: nat -> seq<Pick>, b: nat)
    requires CanPick(k, b, picks(b))
    ensures forall q :: q in Reads(k, b, picks(b)) ==> ReadBy(k, ChoiceOf(may, picks), b, q)
  {
    forall q | q in Reads(k, b, picks(b))
      ensures ReadBy(k, ChoiceOf(may, picks), b, q)
    {
      ReadsAreMayReads(k, b, picks(b), q);
    }
  }

  /** What a fed block reads is clear of another one that has not run, unless they conflict. */
  lemma FedIsAway<V>(k: Shape, may: bool, st: Stage<V>, b: nat, y: nat, picks: nat -> seq<Pick>)
    requires Fed(k, may, st, b, picks(b)) && y !in st.results && CanPick(k, b, picks(b))
    requires !Conflict(k, ChoiceOf(may, picks), y, b)
    ensures Away(k, y, Reads(k, b, picks(b)))
  {
    ActualReads(k, may, picks, b);
    ActualReads(k, may, Only(picks(b)), b);
  }

  /** The picks of the blocks that have run, and of two that have not. */
  ghost function PicksWith<V>(st: Stage<V>, b: nat, mine: seq<Pick>, y: nat, yours: seq<Pick>): nat -> seq<Pick> {
    (n: nat) => if n == b then mine else if n == y then yours else PicksOf(st)(n)
  }

  /** Fed blocks do not lead to blocks that have not run. */
  lemma FedLeadsNowhere<V>(a: Artifact<V>, may: bool, st: Stage<V>, b: nat, y: nat, picks: nat -> seq<Pick>)
    requires Settled(a, may, st) && Fed(a.shape, may, st, b, picks(b)) && y !in st.results
    requires forall n :: n in st.results ==> picks(n) == PicksOf(st)(n)
    ensures !Leads(a.shape, ChoiceOf(may, picks), b, y)
  {
    var k, D := a.shape, st.results.Keys;
    SameDemands(k, may, picks, Only(picks(b)), b);
    assert NeedsIn(k, ChoiceOf(may, picks), b, D);
    forall x, w | x in D && Demands(k, ChoiceOf(may, picks), x, w)
      ensures w in D
    {
      SameDemands(k, may, picks, PicksOf(st), x);
    }
    assert Closed(k, ChoiceOf(may, picks), D);
  }

  lemma FedAreApart<V>(a: Artifact<V>, may: bool, st: Stage<V>, b: nat, mine: seq<Pick>, y: nat, yours: seq<Pick>)
    requires Orderly(a.shape, may) && Settled(a, may, st) && b != y
    requires Fed(a.shape, may, st, b, mine) && Fed(a.shape, may, st, y, yours)
    requires CanPick(a.shape, b, mine) && CanPick(a.shape, y, yours)
    ensures forall p, q :: p in WritesOf(a.shape, b) && q in WritesOf(a.shape, y) ==> !Related(p, q)
    ensures Away(a.shape, b, Reads(a.shape, y, yours)) && Away(a.shape, y, Reads(a.shape, b, mine))
  {
    var k, picks := a.shape, PicksWith(st, b, mine, y, yours);
    var c := ChoiceOf(may, picks);
    assert forall n :: CanPick(k, n, PicksOf(st)(n));
    assert Possible(k, c) && Ordered(k, c);
    FedLeadsNowhere(a, may, st, b, y, picks);
    FedLeadsNowhere(a, may, st, y, b, picks);
    FedIsAway(k, may, st, b, y, picks);
    FedIsAway(k, may, st, y, b, picks);
    assert !Conflict(k, c, b, y);
  }

  lemma ReadyAreApart<V>(a: Artifact<V>, may: bool, st: Stage<V>, b: nat, y: nat)
    requires Orderly(a.shape, may) && Settled(a, may, st) && Ready(a, may, st, b) && Ready(a, may, st, y) && b != y
    ensures Apart(a, st, b, y)
  {
    PicksAtCan(a, st, b);
    PicksAtCan(a, st, y);
    FedAreApart(a, may, st, b, PicksAt(a, st, b), y, PicksAt(a, st, y));
  }

  /** One of two blocks that may run does not disturb the other one. */
  lemma StaysReady<V(!new)>(a: Artifact<V>, may: bool, st: Stage<V>, b: nat, y: nat)
    requires Declares(a) && Ready(a, may, st, b) && b != y && Away(a.shape, y, Reads(a.shape, b, PicksAt(a, st, b)))
    ensures Ready(a, may, After(a, st, y), b)
    ensures PicksAt(a, After(a, st, y), b) == PicksAt(a, st, b) && ResultAt(a, After(a, st, y), b) == ResultAt(a, st, b)
  {
    PassingBy(a, st, y, Reads(a.shape, b, PicksAt(a, st, b)));
    SameTurn(a, st, After(a, st, y), b);
  }

  /** Two blocks that may run can run in either order. */
  lemma Diamond<V(!new)>(a: Artifact<V>, may: bool, st: Stage<V>, b: nat, y: nat)
    requires Declares(a) && Orderly(a.shape, may) && Settled(a, may, st)
    requires Ready(a, may, st, b) && Ready(a, may, st, y) && b != y
    ensures Ready(a, may, After(a, st, y), b) && Ready(a, may, After(a, st, b), y)
    ensures After(a, After(a, st, y), b) == After(a, After(a, st, b), y)
  {
    ReadyAreApart(a, may, st, b, y);
    StaysReady(a, may, st, b, y);
    StaysReady(a, may, st, y, b);
    BothOrders(a, st, b, y);
  }

  lemma BothOrders<V(!new)>(a: Artifact<V>, st: Stage<V>, b: nat, y: nat)
    requires Declares(a) && Apart(a, st, b, y) && b != y
    requires PicksAt(a, After(a, st, y), b) == PicksAt(a, st, b)
    requires ResultAt(a, After(a, st, y), b) == ResultAt(a, st, b)
    requires PicksAt(a, After(a, st, b), y) == PicksAt(a, st, y)
    requires ResultAt(a, After(a, st, b), y) == ResultAt(a, st, y)
    ensures After(a, After(a, st, y), b) == After(a, After(a, st, b), y)
  {
    WritesSwap(a, st, b, y);
    Twice(st, b, PicksAt(a, st, b), ResultAt(a, st, b), y, PicksAt(a, st, y), ResultAt(a, st, y));
  }

  lemma Twice<V>(st: Stage<V>, b: nat, picks: seq<Pick>, result: Outcome<V>, y: nat, picks': seq<Pick>,
      result': Outcome<V>)
    requires b != y
    requires Apply(Apply(st.store, Wrote(result')), Wrote(result)) ==
      Apply(Apply(st.store, Wrote(result)), Wrote(result'))
    ensures Turn(Turn(st, y, picks', result'), b, picks, result) == Turn(Turn(st, b, picks, result), y, picks', result')
  {
    EitherFirst(st.results, b, result, y, result');
    EitherFirst(st.picks, b, picks, y, picks');
  }

  lemma EitherFirst<T>(m: map<nat, T>, b: nat, v: T, y: nat, u: T)
    requires b != y
    ensures m[y := u][b := v] == m[b := v][y := u]
  {
  }

  lemma WritesSwap<V(!new)>(a: Artifact<V>, st: Stage<V>, b: nat, y: nat)
    requires Declares(a) && Apart(a, st, b, y)
    ensures var ws, us := Wrote(ResultAt(a, st, b)), Wrote(ResultAt(a, st, y));
      Apply(Apply(st.store, us), ws) == Apply(Apply(st.store, ws), us)
  {
    WroteDeclared(a, st, b);
    WroteDeclared(a, st, y);
    ApplySwap(st.store, Wrote(ResultAt(a, st, b)), Wrote(ResultAt(a, st, y)));
  }

  // ---------------------------------------------------------------- all runs agree

  /** The order without b. */
  function Without(order: seq<nat>, b: nat): (r: seq<nat>)
    ensures forall x :: x in r <==> x in order && x != b
    ensures |r| <= |order| && (b in order ==> |r| < |order|)
  {
    if order == [] then []
    else
      assert forall x :: x in order <==> x == order[0] || x in order[1..];
      var rest := Without(order[1..], b);
      assert forall x :: x in [order[0]] + rest <==> x == order[0] || x in rest;
      if order[0] == b then rest else [order[0]] + rest
  }

  /** A block that may run still may after others have, and changes nothing for them. */
  lemma {:induction false} Carry<V(!new)>(a: Artifact<V>, may: bool, st: Stage<V>, b: nat, order: seq<nat>)
    requires Declares(a) && Orderly(a.shape, may) && Settled(a, may, st)
    requires Ready(a, may, st, b) && Safe(a, may, st, order) && b !in order
    ensures Ready(a, may, Runs(a, st, order), b) && Safe(a, may, After(a, st, b), order)
    ensures Runs(a, After(a, st, b), order) == After(a, Runs(a, st, order), b)
    decreases |order|
  {
    if order != [] {
      Diamond(a, may, st, b, order[0]);
      AfterSettled(a, may, st, order[0]);
      Carry(a, may, After(a, st, order[0]), b, order[1..]);
    }
  }

  /** A block of the order that may run at once may as well. */
  lemma {:induction false} Front<V(!new)>(a: Artifact<V>, may: bool, st: Stage<V>, b: nat, order: seq<nat>)
    requires Declares(a) && Orderly(a.shape, may) && Settled(a, may, st)
    requires Ready(a, may, st, b) && Safe(a, may, st, order) && b in order
    ensures Safe(a, may, After(a, st, b), Without(order, b))
    ensures Runs(a, After(a, st, b), Without(order, b)) == Runs(a, st, order)
    decreases |order|
  {
    if order[0] == b {
      RunOnce(a, may, After(a, st, b), order[1..], b);
      WithoutNone(order[1..], b);
    } else {
      var y := order[0];
      Diamond(a, may, st, b, y);
      AfterSettled(a, may, st, y);
      Front(a, may, After(a, st, y), b, order[1..]);
      assert ([y] + Without(order[1..], b))[1..] == Without(order[1..], b);
    }
  }

  /** What has run does not run again. */
  lemma {:induction false} RunOnce<V>(a: Artifact<V>, may: bool, st: Stage<V>, order: seq<nat>, b: nat)
    requires Safe(a, may, st, order) && b in st.results
    ensures b !in order
    decreases |order|
  {
    if order != [] {
      RunOnce(a, may, After(a, st, order[0]), order[1..], b);
    }
  }

  lemma {:induction false} WithoutNone(order: seq<nat>, b: nat)
    requires b !in order
    ensures Without(order, b) == order
  {
    if order != [] {
      WithoutNone(order[1..], b);
    }
  }

  /** Any two runs can go on until they are at the same stage. */
  lemma {:induction false} Join<V(!new)>(a: Artifact<V>, may: bool, st: Stage<V>, order: seq<nat>, order': seq<nat>)
    returns (more: seq<nat>, more': seq<nat>)
    requires Declares(a) && Orderly(a.shape, may) && Settled(a, may, st)
    requires Safe(a, may, st, order) && Safe(a, may, st, order')
    ensures Safe(a, may, Runs(a, st, order), more) && Safe(a, may, Runs(a, st, order'), more')
    ensures Runs(a, Runs(a, st, order), more) == Runs(a, Runs(a, st, order'), more')
    ensures forall x :: x in more ==> x in order' && x !in order
    ensures forall x :: x in more' ==> x in order && x !in order'
    decreases |order'|
  {
    if order' == [] {
      more, more' := [], order;
    } else {
      var b := order'[0];
      AfterSettled(a, may, st, b);
      RunOnce(a, may, After(a, st, b), order'[1..], b);
      if b in order {
        Front(a, may, st, b, order);
        more, more' := Join(a, may, After(a, st, b), Without(order, b), order'[1..]);
      } else {
        Carry(a, may, st, b, order);
        more, more' := Join(a, may, After(a, st, b), order, order'[1..]);
        more := [b] + more;
      }
    }
  }

  /** Runs of the same blocks end at the same stage: the same store, results and picks. */
  lemma SameRuns<V(!new)>(a: Artifact<V>, may: bool, st: Stage<V>, order: seq<nat>, order': seq<nat>)
    requires Declares(a) && Orderly(a.shape, may) && Settled(a, may, st)
    requires Safe(a, may, st, order) && Safe(a, may, st, order') && Elements(order) == Elements(order')
    ensures Runs(a, st, order) == Runs(a, st, order')
  {
    var more, more' := Join(a, may, st, order, order');
    assert forall x :: x in order <==> x in Elements(order);
    assert forall x :: x in order' <==> x in Elements(order');
    HasElement(more);
    HasElement(more');
  }

  lemma {:induction false} RunsSettle<V>(a: Artifact<V>, may: bool, st: Stage<V>, order: seq<nat>)
    requires Settled(a, may, st) && Safe(a, may, st, order)
    ensures Settled(a, may, Runs(a, st, order))
    decreases |order|
  {
    if order != [] {
      AfterSettled(a, may, st, order[0]);
      RunsSettle(a, may, After(a, st, order[0]), order[1..]);
    }
  }

  /** What has run stays as it is. */
  lemma {:induction false} RunsKeep<V>(a: Artifact<V>, may: bool, st: Stage<V>, order: seq<nat>, b: nat)
    requires Safe(a, may, st, order)
    ensures b in Runs(a, st, order).results <==> b in st.results || b in order
    ensures b in st.results ==> Runs(a, st, order).results[b] == st.results[b]
    decreases |order|
  {
    if order != [] {
      RunsKeep(a, may, After(a, st, order[0]), order[1..], b);
    }
  }

  /** Two runs, of whatever blocks, give the blocks that run in both the same results. */
  lemma SameResults<V(!new)>(a: Artifact<V>, may: bool, st: Stage<V>, order: seq<nat>, order': seq<nat>, b: nat)
    requires Declares(a) && Orderly(a.shape, may) && Settled(a, may, st)
    requires Safe(a, may, st, order) && Safe(a, may, st, order') && b in order && b in order'
    ensures b in Runs(a, st, order).results && b in Runs(a, st, order').results
    ensures Runs(a, st, order).results[b] == Runs(a, st, order').results[b]
  {
    var more, more' := Join(a, may, st, order, order');
    RunsKeep(a, may, st, order, b);
    RunsKeep(a, may, st, order', b);
    RunsKeep(a, may, Runs(a, st, order), more, b);
    RunsKeep(a, may, Runs(a, st, order'), more', b);
  }

  lemma {:induction false} RunsBoth<V>(a: Artifact<V>, may: bool, st: Stage<V>, order: seq<nat>, more: seq<nat>)
    ensures Runs(a, st, order + more) == Runs(a, Runs(a, st, order), more)
    ensures Safe(a, may, st, order + more) <==> Safe(a, may, st, order) && Safe(a, may, Runs(a, st, order), more)
    decreases |order|
  {
    if order == [] {
      assert order + more == more;
    } else {
      assert (order + more)[0] == order[0] && (order + more)[1..] == order[1..] + more;
      RunsBoth(a, may, After(a, st, order[0]), order[1..], more);
    }
  }

  lemma {:induction false} SafeOnce<V>(a: Artifact<V>, may: bool, st: Stage<V>, order: seq<nat>)
    requires Safe(a, may, st, order)
    ensures NoDuplicates(order)
    decreases |order|
  {
    if order != [] {
      SafeOnce(a, may, After(a, st, order[0]), order[1..]);
      RunOnce(a, may, After(a, st, order[0]), order[1..], order[0]);
      forall i | 1 <= i < |order|
        ensures order[i] != order[0]
      {
        assert order[1..][i - 1] == order[i];
      }
    }
  }

  lemma {:induction false} SplitAt(order: seq<nat>, b: nat) returns (before: seq<nat>, after: seq<nat>)
    requires b in order
    ensures order == before + [b] + after && b !in before
  {
    if order[0] == b {
      before, after := [], order[1..];
    } else {
      before, after := SplitAt(order[1..], b);
      before := [order[0]] + before;
    }
  }

  /** Block b comes before w. */
  predicate Earlier(order: seq<nat>, b: nat, w: nat) {
    exists i, j :: 0 <= i < j < |order| && order[i] == b && order[j] == w
  }

  lemma SplitTurn(before: seq<nat>, b: nat, after: seq<nat>)
    ensures before + [b] + after == before + ([b] + after) && ([b] + after)[0] == b && ([b] + after)[1..] == after
  {
  }

  /** A run comes to the turn of b, and goes on from there. */
  lemma AtTurn<V>(a: Artifact<V>, may: bool, st: Stage<V>, before: seq<nat>, b: nat, after: seq<nat>)
    requires Safe(a, may, st, before + [b] + after)
    ensures var there := Runs(a, st, before);
      && Safe(a, may, st, before) && Ready(a, may, there, b) && Safe(a, may, After(a, there, b), after)
      && Runs(a, st, before + [b] + after) == Runs(a, After(a, there, b), after)
  {
    SplitTurn(before, b, after);
    RunsBoth(a, may, st, before, [b] + after);
  }

  /** A block ends with what it ends with at its turn. */
  lemma ResultOf<V>(a: Artifact<V>, may: bool, st: Stage<V>, before: seq<nat>, b: nat, after: seq<nat>)
    requires Safe(a, may, st, before + [b] + after)
    ensures b in Runs(a, st, before + [b] + after).results
    ensures Runs(a, st, before + [b] + after).results[b] == ResultAt(a, Runs(a, st, before), b)
  {
    AtTurn(a, may, st, before, b, after);
    RunsKeep(a, may, After(a, Runs(a, st, before), b), after, b);
  }

  /** In a topological run what a block may demand comes before it. */
  lemma DemandedEarlier<V>(a: Artifact<V>, order: seq<nat>, b: nat, w: nat)
    requires Safe(a, true, Begin(a), order) && w in order && Demands(a.shape, Any, w, b)
    ensures Earlier(order, b, w)
  {
    var before, after := SplitAt(order, w);
    AtTurn(a, true, Begin(a), before, w, after);
    RunsKeep(a, true, Begin(a), before, b);
    var i :| 0 <= i < |before| && before[i] == b;
    assert order[i] == b && order[|before|] == w;
  }

  // ---------------------------------------------------------------- what a fed block sees

  lemma SeesSameBoth<V>(k: Shape, r: Stage<V>, s: Stage<V>, t: Stage<V>, paths: seq<Path>)
    requires SeesSame(k, r, s, paths) && SeesSame(k, t, s, paths)
    ensures SeesSame(k, r, t, paths)
  {
  }

  /** What a fed block sees does not change until it runs. */
  lemma {:induction false} ViewStays<V(!new)>(a: Artifact<V>, may: bool, st: Stage<V>, order: seq<nat>, b: nat,
      mine: seq<Pick>)
    requires Declares(a) && Orderly(a.shape, may) && Settled(a, may, st) && Safe(a, may, st, order)
    requires Fed(a.shape, may, st, b, mine) && CanPick(a.shape, b, mine) && b !in order
    ensures SeesSame(a.shape, st, Runs(a, st, order), Reads(a.shape, b, mine))
    decreases |order|
  {
    if order != [] {
      var y := order[0];
      PicksAtCan(a, st, y);
      FedAreApart(a, may, st, b, mine, y, PicksAt(a, st, y));
      PassingBy(a, st, y, Reads(a.shape, b, mine));
      AfterSettled(a, may, st, y);
      ViewStays(a, may, After(a, st, y), order[1..], b, mine);
    }
  }

  /** A block that is fed after two runs sees the same after both. */
  lemma ViewAgrees<V(!new)>(a: Artifact<V>, may: bool, st: Stage<V>, order: seq<nat>, order': seq<nat>, b: nat,
      mine: seq<Pick>)
    requires Declares(a) && Orderly(a.shape, may) && Settled(a, may, st) && CanPick(a.shape, b, mine)
    requires Safe(a, may, st, order) && Fed(a.shape, may, Runs(a, st, order), b, mine)
    requires Safe(a, may, st, order') && Fed(a.shape, may, Runs(a, st, order'), b, mine)
    ensures SeesSame(a.shape, Runs(a, st, order), Runs(a, st, order'), Reads(a.shape, b, mine))
  {
    var s, s' := Runs(a, st, order), Runs(a, st, order');
    var more, more' := Join(a, may, st, order, order');
    RunsKeep(a, may, st, order, b);
    RunsKeep(a, may, st, order', b);
    RunsSettle(a, may, st, order);
    RunsSettle(a, may, st, order');
    ViewStays(a, may, s, more, b, mine);
    ViewStays(a, may, s', more', b, mine);
    SeesSameBoth(a.shape, s, Runs(a, s, more), s', Reads(a.shape, b, mine));
  }
}
