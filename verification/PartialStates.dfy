/**
 Partial states of a cell, what they stand for and what merging them in any tree shape yields.
 */
module PartialStates {
  import opened Wrappers
  import opened Samples
  import opened Accumulator
  import opened ClassCounts
  import opened Variance

  datatype Kind = Continuous | Categorical

  /** What a partial state decodes to. */
  datatype Content =
    | ContinuousContent(stats: Stats, sketch: Option<Sketch>)
    | CategoricalContent(counts: Counts)

  /** The observations behind a state: weighted samples, or weighted classes. */
  datatype Source = Source(samples: seq<Sample>, observations: seq<Entry>)

  const NOTHING := Source([], [])

  function Join(a: Source, b: Source): Source {
    Source(a.samples + b.samples, a.observations + b.observations)
  }

  /** The state holds the statistics of the source, and at most its samples in the sketch. */
  ghost predicate Represents(kind: Kind, x: Option<Content>, src: Source) {
    match x
    case None => src == NOTHING
    case Some(ContinuousContent(stats, sketch)) =>
      && kind.Continuous? && src.observations == []
      && Samples.Positive(src.samples) && stats == Summary(src.samples)
      && (sketch.Some? ==> sketch.value <= multiset(src.samples))
    case Some(CategoricalContent(counts)) =>
      kind.Categorical? && src.samples == [] && counts == CountsOf(src.observations)
  }

  /** The sketch holds exactly the counted samples. */
  ghost predicate Complete(x: Option<Content>, src: Source) {
    || src.samples == []
    || (x.Some? && x.value.ContinuousContent? && x.value.sketch == Some(multiset(src.samples)))
  }

  function Merged(a: Content, b: Content): Content {
    match (a, b)
    case (CategoricalContent(m), CategoricalContent(n)) => CategoricalContent(Plus(m, n))
    case (ContinuousContent(s, p), ContinuousContent(t, q)) =>
      if s.count >= 0.0 && t.count >= 0.0 then
        ContinuousContent(Combine(s, t), MergedSketch(p, s.count == 0.0, q, t.count == 0.0))
      else a
    case _ => a
  }

  /** One state more; a null state is skipped, the first one is adopted. */
  function Step(a: Option<Content>, b: Option<Content>): Option<Content> {
    if b.None? then a else if a.None? then b else Some(Merged(a.value, b.value))
  }

  lemma SketchParts(a: Sketch, b: Sketch, s: Sketch, t: Sketch)
    requires a <= s && b <= t
    ensures a + b <= s + t
    ensures a + b == s + t <==> a == s && b == t
  {
    if a + b == s + t {
      forall x
        ensures a[x] == s[x] && b[x] == t[x]
      {
        assert (a + b)[x] == (s + t)[x];
      }
    }
  }

  lemma SketchMerged(p: Option<Sketch>, q: Option<Sketch>, s: seq<Sample>, t: seq<Sample>)
    requires p.Some? ==> p.value <= multiset(s)
    requires q.Some? ==> q.value <= multiset(t)
    ensures var r := MergedSketch(p, s == [], q, t == []);
      && (r.Some? ==> r.value <= multiset(s + t))
      && (s + t != [] ==>
            (r == Some(multiset(s + t))
             <==> (s == [] || p == Some(multiset(s))) && (t == [] || q == Some(multiset(t)))))
  {
    assert multiset(s + t) == multiset(s) + multiset(t);
    var a := if p.Some? then p.value else multiset{};
    var b := if q.Some? then q.value else multiset{};
    SketchParts(a, b, multiset(s), multiset(t));
    assert a + multiset{} == a && multiset{} + b == b;
    if t != [] {
      assert t[0] in multiset(t);
      SketchParts(a, multiset{}, multiset(s), multiset(t));
    }
    if s != [] {
      assert s[0] in multiset(s);
    }
  }

  /** Merging two states stands for both sources; the sketch of the result is complete exactly
      when both sketches were. */
  lemma StepRepresents(kind: Kind, a: Option<Content>, s: Source, b: Option<Content>, t: Source)
    requires Represents(kind, a, s) && Represents(kind, b, t)
    ensures Represents(kind, Step(a, b), Join(s, t))
    ensures kind.Continuous? ==>
              (Complete(Step(a, b), Join(s, t)) <==> Complete(a, s) && Complete(b, t))
  {
    if a.Some? && b.Some? {
      match kind
      case Categorical =>
        PlusIs(s.observations, t.observations);
      case Continuous =>
        CombineIs(s.samples, t.samples);
        EmptyByCount(s.samples);
        EmptyByCount(t.samples);
        SketchMerged(a.value.sketch, b.value.sketch, s.samples, t.samples);
    } else {
      assert Join(s, NOTHING) == s && Join(NOTHING, t) == t;
    }
  }

  // ----- Aggregation trees -----

  /** A state with what it stands for. */
  datatype Leaf = Leaf(content: Option<Content>, source: Source)

  /** One accumulator: it takes in batches of rows, and of states exported by others. */
  datatype Node = Node(inputs: seq<Input>)
  datatype Input = Rows(leaves: seq<Leaf>) | Partials(children: seq<Node>)

  function Fold(a: Option<Content>, leaves: seq<Leaf>): Option<Content> {
    if leaves == [] then a else Step(Fold(a, leaves[..|leaves| - 1]), leaves[|leaves| - 1].content)
  }

  /** The state of an accumulator after its inputs. */
  function Evaluate(node: Node): Option<Content>
    decreases node, 1, 0
  {
    AfterInputs(node, |node.inputs|)
  }

  function AfterInputs(node: Node, n: nat): Option<Content>
    requires n <= |node.inputs|
    decreases node, 0, n
  {
    if n == 0 then None
    else
      var before := AfterInputs(node, n - 1);
      match node.inputs[n - 1]
      case Rows(leaves) => Fold(before, leaves)
      case Partials(children) => AfterChildren(node.inputs[n - 1], before, |children|)
  }

  function AfterChildren(input: Input, before: Option<Content>, n: nat): Option<Content>
    requires input.Partials? && n <= |input.children|
    decreases input, 0, n
  {
    if n == 0 then before
    else Step(AfterChildren(input, before, n - 1), Evaluate(input.children[n - 1]))
  }

  /** All leaves of a tree, in the order of the inputs. */
  function Leaves(node: Node): seq<Leaf>
    decreases node, 1, 0
  {
    LeavesOfInputs(node, |node.inputs|)
  }

  function LeavesOfInputs(node: Node, n: nat): seq<Leaf>
    requires n <= |node.inputs|
    decreases node, 0, n
  {
    if n == 0 then []
    else
      LeavesOfInputs(node, n - 1)
      + match node.inputs[n - 1]
        case Rows(leaves) => leaves
        case Partials(children) => LeavesOfChildren(node.inputs[n - 1], |children|)
  }

  function LeavesOfChildren(input: Input, n: nat): seq<Leaf>
    requires input.Partials? && n <= |input.children|
    decreases input, 0, n
  {
    if n == 0 then [] else LeavesOfChildren(input, n - 1) + Leaves(input.children[n - 1])
  }

  function SourceOf(leaves: seq<Leaf>): Source {
    if leaves == [] then NOTHING
    else Join(SourceOf(leaves[..|leaves| - 1]), leaves[|leaves| - 1].source)
  }

  ghost predicate AllRepresent(kind: Kind, leaves: seq<Leaf>) {
    forall i :: 0 <= i < |leaves| ==> Represents(kind, leaves[i].content, leaves[i].source)
  }

  ghost predicate AllComplete(leaves: seq<Leaf>) {
    forall i :: 0 <= i < |leaves| ==> Complete(leaves[i].content, leaves[i].source)
  }

  predicate AllNull(leaves: seq<Leaf>) {
    forall i :: 0 <= i < |leaves| ==> leaves[i].content.None?
  }

  /** The first state that is not null. */
  function First(leaves: seq<Leaf>): Option<Content> {
    if leaves == [] then None
    else
      var n := |leaves| - 1;
      var first := First(leaves[..n]);
      if first.Some? then first else leaves[n].content
  }

  // ----- What becomes of sketches -----

  /** The sketch of a state, if it has one. */
  function SketchIn(x: Option<Content>): Option<Sketch> {
    if x.Some? && x.value.ContinuousContent? then x.value.sketch else None
  }

  function InSketch(sketch: Option<Sketch>): Sketch {
    if sketch.Some? then sketch.value else multiset{}
  }

  /** What matters of a state for sketches: whether there is one, whether it counts samples, its sketch. */
  datatype Marks = Marks(absent: bool, counts: bool, sketch: Option<Sketch>) {
    predicate Valid() {
      && (absent ==> !counts && sketch.None?)
      && (!counts ==> InSketch(sketch) == multiset{})
    }

    /** Merging another state. */
    function Then(y: Marks): Marks {
      if y.absent then this
      else if absent then y
      else
        Marks(false, counts || y.counts,
              if !y.counts || y.sketch.None? then sketch
              else if sketch.Some? then Some(sketch.value + y.sketch.value)
              else if !counts then y.sketch
              else None)
    }
  }

  function MarksOf(x: Option<Content>, src: Source): Marks {
    Marks(x.None?, src.samples != [], SketchIn(x))
  }

  /** What matters of some states in order, for the sketches of the trees over them: all that their
      sketches hold; whether the first state, and the first one that counts samples, has a sketch;
      whether one without samples before the latter has a sketch; whether one counts samples without
      a sketch, and comes before one whose sketch holds samples. */
  datatype Profile = Profile(held: Sketch, first: Option<bool>, lead: Option<bool>, early: bool, bare: bool,
                             loses: bool)
  {
    /** The first state has a sketch. */
    predicate StartsSketched() {
      first.Some? && first.value
    }

    /** The first state that counts samples has a sketch. */
    predicate Led() {
      lead.Some? && lead.value
    }

    /** The first state that counts samples has none. */
    predicate Unled() {
      lead.Some? && !lead.value
    }

    function Then(q: Profile): Profile {
      Profile(held + q.held, if first.Some? then first else q.first, if lead.Some? then lead else q.lead,
              early || (lead.None? && q.early), bare || q.bare,
              loses || q.loses || (bare && q.held != multiset{}))
    }
  }

  const NO_STATES := Profile(multiset{}, None, None, false, false, false)

  function ProfileOfOne(x: Marks): Profile {
    var sketched := x.sketch.Some?;
    Profile(InSketch(x.sketch), if x.absent then None else Some(sketched), if x.counts then Some(sketched) else None,
            !x.counts && sketched, x.counts && !sketched, false)
  }

  function ProfileOf(leaves: seq<Leaf>): Profile {
    if leaves == [] then NO_STATES
    else
      var last := leaves[|leaves| - 1];
      ProfileOf(leaves[..|leaves| - 1]).Then(ProfileOfOne(MarksOf(last.content, last.source)))
  }

  lemma SketchSums(a: Sketch, b: Sketch, c: Sketch)
    ensures a + multiset{} == a && multiset{} + a == a && a + b + c == a + (b + c)
    ensures a + b != multiset{} <==> a != multiset{} || b != multiset{}
  {
    if x :| x in a {
      assert x in a + b;
    }
    if x :| x in b {
      assert x in a + b;
    }
  }

  lemma ProfileAssociates(p: Profile, q: Profile, r: Profile)
    ensures p.Then(q).Then(r) == p.Then(q.Then(r))
    ensures p.Then(NO_STATES) == p && NO_STATES.Then(p) == p
  {
    SketchSums(p.held, q.held, r.held);
    SketchSums(q.held, r.held, multiset{});
  }

  lemma {:induction false} ProfileAppend(a: seq<Leaf>, b: seq<Leaf>)
    ensures ProfileOf(a + b) == ProfileOf(a).Then(ProfileOf(b))
  {
    if b == [] {
      assert a + b == a;
      ProfileAssociates(ProfileOf(a), NO_STATES, NO_STATES);
    } else {
      var n := |b| - 1;
      assert (a + b)[..|a| + n] == a + b[..n];
      ProfileAppend(a, b[..n]);
      ProfileAssociates(ProfileOf(a), ProfileOf(b[..n]), ProfileOfOne(MarksOf(b[n].content, b[n].source)));
    }
  }

  /** What every tree over states of a profile makes of their sketches. */
  predicate Shaped(x: Marks, p: Profile) {
    && x.Valid() && (x.absent <==> p.first.None?) && (x.counts <==> p.lead.Some?)
    && (p.Unled() ==> p.bare) && (p.lead.None? && p.StartsSketched() ==> p.early)
    && (!x.counts && !x.absent ==> (p.StartsSketched() <==> x.sketch.Some?))
    && (!p.loses ==> InSketch(x.sketch) == p.held)
    && (p.StartsSketched() || p.Led() ==> x.sketch.Some?)
    && (p.Unled() && !p.early ==> x.sketch.None?)
  }

  lemma ShapedThen(x: Marks, p: Profile, y: Marks, q: Profile)
    requires Shaped(x, p) && Shaped(y, q)
    ensures Shaped(x.Then(y), p.Then(q))
  {
    SketchSums(p.held, q.held, multiset{});
    SketchSums(q.held, p.held, multiset{});
    if !p.loses && !q.loses && !(p.bare && q.held != multiset{}) {
      HeldThen(x, p, y, q);
    }
  }

  lemma HeldThen(x: Marks, p: Profile, y: Marks, q: Profile)
    requires Shaped(x, p) && Shaped(y, q) && !p.loses && !q.loses && (p.bare ==> q.held == multiset{})
    ensures InSketch(x.Then(y).sketch) == p.held + q.held
  {
    SketchSums(p.held, q.held, multiset{});
    SketchSums(q.held, p.held, multiset{});
    assert InSketch(x.sketch) == p.held && InSketch(y.sketch) == q.held;
    if y.absent || !y.counts || y.sketch.None? {
      assert q.held == multiset{};
      assert x.Then(y).sketch == x.sketch || x.absent;
    } else if x.absent || (x.sketch.None? && !x.counts) {
      assert p.held == multiset{} && x.Then(y).sketch == y.sketch;
    } else if x.sketch.None? {
      assert p.Unled() && q.held == multiset{};
    }
  }

  /** Merging states merges their marks. */
  lemma MarksMerge(x: Option<Content>, s: Source, y: Option<Content>, t: Source)
    requires Represents(Continuous, x, s) && Represents(Continuous, y, t)
    ensures MarksOf(Step(x, y), Join(s, t)) == MarksOf(x, s).Then(MarksOf(y, t))
  {
    EmptyByCount(s.samples);
    EmptyByCount(t.samples);
  }

  lemma ShapedOne(x: Option<Content>, s: Source)
    requires Represents(Continuous, x, s)
    ensures Shaped(MarksOf(x, s), NO_STATES.Then(ProfileOfOne(MarksOf(x, s))))
  {
    assert multiset{} + InSketch(SketchIn(x)) == InSketch(SketchIn(x));
  }

  /** What a state reached over some leaves must satisfy. Without samples it is the first one. */
  ghost predicate Sums(kind: Kind, x: Option<Content>, leaves: seq<Leaf>) {
    && Represents(kind, x, SourceOf(leaves))
    && (kind.Continuous? ==> (Complete(x, SourceOf(leaves)) <==> AllComplete(leaves)))
    && (kind.Continuous? && SourceOf(leaves).samples == [] ==> x == First(leaves))
    && (kind.Continuous? ==> Shaped(MarksOf(x, SourceOf(leaves)), ProfileOf(leaves)))
    && (x.None? <==> AllNull(leaves))
  }

  lemma {:induction false} FirstAppend(a: seq<Leaf>, b: seq<Leaf>)
    ensures First(a + b) == if First(a).Some? then First(a) else First(b)
  {
    if b == [] {
      assert a + b == a;
    } else {
      var n := |b| - 1;
      assert (a + b)[..|a| + n] == a + b[..n];
      FirstAppend(a, b[..n]);
    }
  }

  /** A state without samples adds nothing to another one. */
  lemma EmptyStep(x: Option<Content>, s: Source, y: Option<Content>, t: Source)
    requires Represents(Continuous, x, s) && Represents(Continuous, y, t) && t.samples == []
    ensures Step(x, y) == if x.Some? then x else y
  {
    if x.Some? && y.Some? {
      EmptyByCount(s.samples);
      EmptyByCount(t.samples);
    }
  }

  lemma {:induction false} SourceAppend(a: seq<Leaf>, b: seq<Leaf>)
    ensures SourceOf(a + b) == Join(SourceOf(a), SourceOf(b))
  {
    if b == [] {
      assert a + b == a;
      assert Join(SourceOf(a), NOTHING) == SourceOf(a);
    } else {
      var n := |b| - 1;
      assert (a + b)[..|a| + n] == a + b[..n];
      SourceAppend(a, b[..n]);
      JoinAssociates(SourceOf(a), SourceOf(b[..n]), b[n].source);
    }
  }

  lemma JoinAssociates(a: Source, b: Source, c: Source)
    ensures Join(Join(a, b), c) == Join(a, Join(b, c))
  {
    assert a.samples + b.samples + c.samples == a.samples + (b.samples + c.samples);
    assert a.observations + b.observations + c.observations
        == a.observations + (b.observations + c.observations);
  }

  lemma SumsStep(kind: Kind, x: Option<Content>, a: seq<Leaf>, y: Option<Content>, b: seq<Leaf>)
    requires Sums(kind, x, a) && Sums(kind, y, b)
    ensures Sums(kind, Step(x, y), a + b)
  {
    StepRepresents(kind, x, SourceOf(a), y, SourceOf(b));
    SourceAppend(a, b);
    AppendAll(a, b);
    FirstAppend(a, b);
    if kind.Continuous? {
      ShapedThen(MarksOf(x, SourceOf(a)), ProfileOf(a), MarksOf(y, SourceOf(b)), ProfileOf(b));
      MarksMerge(x, SourceOf(a), y, SourceOf(b));
      ProfileAppend(a, b);
      if SourceOf(b).samples == [] {
        EmptyStep(x, SourceOf(a), y, SourceOf(b));
      }
    }
  }

  lemma SumsNext(kind: Kind, x: Option<Content>, a: seq<Leaf>, front: seq<Leaf>,
                 y: Option<Content>, b: seq<Leaf>)
    requires Sums(kind, x, a + front) && Sums(kind, y, b)
    ensures Sums(kind, Step(x, y), a + (front + b))
  {
    SumsStep(kind, x, a + front, y, b);
    LeavesAssoc(a, front, b);
  }

  lemma LeavesAssoc(a: seq<Leaf>, b: seq<Leaf>, c: seq<Leaf>)
    ensures a + (b + c) == a + b + c
  {}

  lemma AppendAll(a: seq<Leaf>, b: seq<Leaf>)
    ensures AllComplete(a + b) <==> AllComplete(a) && AllComplete(b)
    ensures AllNull(a + b) <==> AllNull(a) && AllNull(b)
  {
    if AllComplete(a + b) {
      forall i | 0 <= i < |a| ensures Complete(a[i].content, a[i].source) { assert (a + b)[i] == a[i]; }
      forall i | 0 <= i < |b| ensures Complete(b[i].content, b[i].source) { assert (a + b)[|a| + i] == b[i]; }
    }
    if AllNull(a + b) {
      forall i | 0 <= i < |a| ensures a[i].content.None? { assert (a + b)[i] == a[i]; }
      forall i | 0 <= i < |b| ensures b[i].content.None? { assert (a + b)[|a| + i] == b[i]; }
    }
  }

  lemma SumsOne(kind: Kind, leaf: Leaf)
    requires Represents(kind, leaf.content, leaf.source)
    ensures Sums(kind, leaf.content, [leaf])
  {
    assert [leaf][..0] == [];
    assert Join(NOTHING, leaf.source) == leaf.source;
    if kind.Continuous? {
      ShapedOne(leaf.content, leaf.source);
    }
    assert [leaf][0] == leaf;
  }

  lemma {:induction false} SumsFold(kind: Kind, x: Option<Content>, a: seq<Leaf>, leaves: seq<Leaf>)
    requires Sums(kind, x, a) && AllRepresent(kind, leaves)
    ensures Sums(kind, Fold(x, leaves), a + leaves)
  {
    if leaves == [] {
      assert a + leaves == a;
    } else {
      var front, last := leaves[..|leaves| - 1], leaves[|leaves| - 1];
      assert leaves == front + [last];
      Parts(kind, front, [last]);
      assert Represents(kind, [last][0].content, [last][0].source);
      SumsFold(kind, x, a, front);
      SumsOne(kind, last);
      SumsNext(kind, Fold(x, front), a, front, last.content, [last]);
      assert Fold(x, leaves) == Step(Fold(x, front), last.content);
    }
  }

  /** Any tree: its result stands for the samples of all leaves together. It is null only when all
      states were, and its sketch is complete exactly when every leaf's was. */
  lemma {:induction false} TreeSums(kind: Kind, node: Node)
    requires AllRepresent(kind, Leaves(node))
    ensures Sums(kind, Evaluate(node), Leaves(node))
    decreases node, 1, 0
  {
    TreeInputs(kind, node, |node.inputs|);
  }

  lemma {:induction false} TreeInputs(kind: Kind, node: Node, n: nat)
    requires n <= |node.inputs| && AllRepresent(kind, LeavesOfInputs(node, n))
    ensures Sums(kind, AfterInputs(node, n), LeavesOfInputs(node, n))
    decreases node, 0, n
  {
    if n > 0 {
      var input := node.inputs[n - 1];
      var before, a := AfterInputs(node, n - 1), LeavesOfInputs(node, n - 1);
      var b := match input case Rows(leaves) => leaves case Partials(cs) => LeavesOfChildren(input, |cs|);
      Parts(kind, a, b);
      TreeInputs(kind, node, n - 1);
      match input
      case Rows(leaves) => SumsFold(kind, before, a, leaves);
      case Partials(children) => TreeChildren(kind, input, before, a, |children|);
    }
  }

  lemma {:induction false} TreeChildren(kind: Kind, input: Input, before: Option<Content>,
                                        a: seq<Leaf>, n: nat)
    requires input.Partials? && n <= |input.children| && Sums(kind, before, a)
    requires AllRepresent(kind, LeavesOfChildren(input, n))
    ensures Sums(kind, AfterChildren(input, before, n), a + LeavesOfChildren(input, n))
    decreases input, 0, n
  {
    if n == 0 {
      assert a + [] == a;
    } else {
      var child := input.children[n - 1];
      var front := LeavesOfChildren(input, n - 1);
      Parts(kind, front, Leaves(child));
      TreeChildren(kind, input, before, a, n - 1);
      TreeSums(kind, child);
      SumsNext(kind, AfterChildren(input, before, n - 1), a, front, Evaluate(child), Leaves(child));
    }
  }

  lemma Parts(kind: Kind, a: seq<Leaf>, b: seq<Leaf>)
    requires AllRepresent(kind, a + b)
    ensures AllRepresent(kind, a) && AllRepresent(kind, b)
  {
    forall i | 0 <= i < |a|
      ensures Represents(kind, a[i].content, a[i].source)
    {
      assert (a + b)[i] == a[i];
    }
    forall i | 0 <= i < |b|
      ensures Represents(kind, b[i].content, b[i].source)
    {
      assert (a + b)[|a| + i] == b[i];
    }
  }

  /** The statistics or counts of a state, without its sketch. */
  function Figures(x: Option<Content>): Option<Content> {
    if x.Some? && x.value.ContinuousContent? then Some(ContinuousContent(x.value.stats, None)) else x
  }

  lemma {:induction false} FlatSums(kind: Kind, leaves: seq<Leaf>)
    requires AllRepresent(kind, leaves)
    ensures Sums(kind, Fold(None, leaves), leaves)
  {
    assert Sums(kind, None, []);
    SumsFold(kind, None, [], leaves);
    assert [] + leaves == leaves;
  }

  lemma ValidMarks(x: Option<Content>, s: Source)
    requires Represents(Continuous, x, s)
    ensures MarksOf(x, s).Valid()
  {}

  /** States of one source with the same sketch are the same. */
  lemma SameMarks(x: Option<Content>, y: Option<Content>, s: Source)
    requires Represents(Continuous, x, s) && Represents(Continuous, y, s)
    ensures MarksOf(x, s) == MarksOf(y, s) <==> x == y
  {}

  /** Whether grouping cannot matter. Nothing is counted; or the flat merge ends with a sketch, and none
      that holds samples comes after a state that counts samples without one; or it ends without a
      sketch, and no state without samples has one before the first state that counts samples. */
  predicate ShapeFree(p: Profile) {
    p.lead.None? || if p.StartsSketched() || p.Led() then !p.loses else !p.early
  }

  lemma ShapesAgree(x: Marks, y: Marks, p: Profile)
    requires Shaped(x, p) && Shaped(y, p) && p.lead.Some? && ShapeFree(p)
    ensures x == y
  {}

  lemma {:induction false} PlainProfile(leaves: seq<Leaf>)
    requires forall i :: 0 <= i < |leaves| ==> SketchIn(leaves[i].content).None?
    ensures var p := ProfileOf(leaves);
      !p.StartsSketched() && !p.Led() && !p.early && p.held == multiset{} && ShapeFree(p)
  {
    if leaves != [] {
      PlainProfile(leaves[..|leaves| - 1]);
    }
  }

  /** A multi-phase aggregation has the statistics or class weights of one flat merge of the same states.
      The sketches agree as well when the shape cannot matter: above all when no state has a sketch, and
      when every state that counts samples has a complete one. */
  lemma {:induction false} TreeIsFlat(kind: Kind, node: Node)
    requires AllRepresent(kind, Leaves(node))
    ensures Figures(Evaluate(node)) == Figures(Fold(None, Leaves(node)))
    ensures kind.Categorical? || ShapeFree(ProfileOf(Leaves(node))) ==> Evaluate(node) == Fold(None, Leaves(node))
    ensures (forall i :: 0 <= i < |Leaves(node)| ==> SketchIn(Leaves(node)[i].content).None?) ==>
              Evaluate(node) == Fold(None, Leaves(node))
    ensures AllComplete(Leaves(node)) ==> Evaluate(node) == Fold(None, Leaves(node))
  {
    var leaves := Leaves(node);
    TreeSums(kind, node);
    FlatSums(kind, leaves);
    if kind.Continuous? && ProfileOf(leaves).lead.Some? && ShapeFree(ProfileOf(leaves)) {
      ShapesAgree(MarksOf(Evaluate(node), SourceOf(leaves)), MarksOf(Fold(None, leaves), SourceOf(leaves)),
                  ProfileOf(leaves));
      SameMarks(Evaluate(node), Fold(None, leaves), SourceOf(leaves));
    }
    if forall i :: 0 <= i < |leaves| ==> SketchIn(leaves[i].content).None? {
      PlainProfile(leaves);
    }
  }

  /** Two trees over the same observations, grouped and ordered in any way, give the same figures. When
      all states are complete they give the same sketch too, unless nothing is counted: then each gives
      its first state. */
  lemma {:induction false} TreesAgree(kind: Kind, a: Node, b: Node)
    requires AllRepresent(kind, Leaves(a)) && AllRepresent(kind, Leaves(b))
    requires AllNull(Leaves(a)) <==> AllNull(Leaves(b))
    requires multiset(SourceOf(Leaves(a)).samples) == multiset(SourceOf(Leaves(b)).samples)
    requires multiset(SourceOf(Leaves(a)).observations) == multiset(SourceOf(Leaves(b)).observations)
    ensures Figures(Evaluate(a)) == Figures(Evaluate(b))
    ensures kind.Categorical? ==> Evaluate(a) == Evaluate(b)
    ensures kind.Continuous? && AllComplete(Leaves(a)) && AllComplete(Leaves(b)) ==>
              (Evaluate(a) == Evaluate(b)
               <==> SourceOf(Leaves(a)).samples != [] || First(Leaves(a)) == First(Leaves(b)))
  {
    var s, t := SourceOf(Leaves(a)), SourceOf(Leaves(b));
    TreeSums(kind, a);
    TreeSums(kind, b);
    SummaryPermuted(s.samples, t.samples);
    CountsPermuted(s.observations, t.observations);
    SameLength(s.samples, t.samples);
  }

  lemma SameLength(s: seq<Sample>, t: seq<Sample>)
    requires multiset(s) == multiset(t)
    ensures |s| == |t| && (s == [] <==> t == [])
  {
    assert |multiset(s)| == |s| && |multiset(t)| == |t|;
  }

  function Full(s: seq<Sample>): Option<Content> {
    Some(ContinuousContent(Summary(s), Some(multiset(s))))
  }

  function Bare(s: seq<Sample>): Option<Content> {
    Some(ContinuousContent(Summary(s), None))
  }

  /** Without complete sketches the shape of the tree shows: of three states the middle one has no
      sketch, and what the final sketch holds depends on the grouping. */
  lemma SketchShape(s: seq<Sample>)
    requires Samples.Positive(s) && s != []
    ensures Represents(Continuous, Full(s), Source(s, []))
    ensures Represents(Continuous, Bare(s), Source(s, []))
    ensures Step(Step(Full(s), Bare(s)), Full(s)) != Step(Full(s), Step(Bare(s), Full(s)))
  {
    CombineIs(s, s);
    EmptyByCount(s);
    EmptyByCount(s + s);
    var once, twice := multiset(s), multiset(s) + multiset(s);
    assert Step(Step(Full(s), Bare(s)), Full(s)).value.sketch == Some(twice);
    assert Step(Full(s), Step(Bare(s), Full(s))).value.sketch == Some(once);
    assert s[0] in once && twice[s[0]] == once[s[0]] + once[s[0]];
  }
}
