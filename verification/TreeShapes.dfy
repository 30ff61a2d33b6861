/**
 When the shape of an aggregation does not matter. Statistics and class weights never depend on how
 partial states are grouped; what the final sketch holds depends on it exactly when some states
 count samples without a sketch in the wrong place.
 */
module TreeShapes {
  import opened Wrappers
  import opened Accumulator
  import opened PartialStates

  // ----- Three states -----

  /** Grouped to the right, what `c` holds is lost: it is merged into a state without a sketch. */
  predicate Gap(a: Marks, b: Marks, c: Marks) {
    a.sketch.Some? && b.counts && b.sketch.None? && c.counts && InSketch(c.sketch) != multiset{}
  }

  /** Grouped to the right, the empty sketch of `b` takes in `c` and is adopted by `a`; grouped to the
      left it is ignored. */
  predicate Lost(a: Marks, b: Marks, c: Marks) {
    && !a.absent && !a.counts && a.sketch.None? && !b.counts && b.sketch.Some?
    && c.counts && c.sketch.None?
  }

  lemma GrowsStrictly(a: Sketch, b: Sketch)
    requires b != multiset{}
    ensures a + b != a
  {
    var x :| x in b;
    assert (a + b)[x] == a[x] + b[x];
  }

  lemma MarksAssociate(a: Marks, b: Marks, c: Marks)
    requires a.Valid() && b.Valid() && c.Valid()
    ensures a.Then(b).Then(c) == a.Then(b.Then(c)) <==> !Gap(a, b, c) && !Lost(a, b, c)
  {
    SketchSums(InSketch(a.sketch), InSketch(b.sketch), InSketch(c.sketch));
    SketchSums(InSketch(b.sketch), InSketch(c.sketch), multiset{});
    SketchSums(InSketch(c.sketch), multiset{}, multiset{});
    if Gap(a, b, c) && c.sketch.Some? {
      GrowsStrictly(InSketch(a.sketch), InSketch(c.sketch));
    }
  }

  /** Merging is associative exactly when there is neither a gap nor a lost sketch. */
  lemma MergeAssociates(x: Option<Content>, s: Source, y: Option<Content>, t: Source, z: Option<Content>, u: Source)
    requires Represents(Continuous, x, s) && Represents(Continuous, y, t) && Represents(Continuous, z, u)
    ensures var a, b, c := MarksOf(x, s), MarksOf(y, t), MarksOf(z, u);
      Step(Step(x, y), z) == Step(x, Step(y, z)) <==> !Gap(a, b, c) && !Lost(a, b, c)
  {
    ValidMarks(x, s);
    ValidMarks(y, t);
    ValidMarks(z, u);
    MarksAssociate(MarksOf(x, s), MarksOf(y, t), MarksOf(z, u));
    StepRepresents(Continuous, x, s, y, t);
    StepRepresents(Continuous, y, t, z, u);
    StepRepresents(Continuous, Step(x, y), Join(s, t), z, u);
    StepRepresents(Continuous, x, s, Step(y, z), Join(t, u));
    JoinAssociates(s, t, u);
    MarksMerge(x, s, y, t);
    MarksMerge(y, t, z, u);
    MarksMerge(Step(x, y), Join(s, t), z, u);
    MarksMerge(x, s, Step(y, z), Join(t, u));
    SameMarks(Step(Step(x, y), z), Step(x, Step(y, z)), Join(s, Join(t, u)));
  }

  // ----- A tree that differs -----

  /** Some leaves, then others in a group of their own. */
  function SplitTree(a: seq<Leaf>, b: seq<Leaf>): Node {
    Node([Rows(a), Partials([RowsTree(b)])])
  }

  function RowsTree(rows: seq<Leaf>): Node {
    Node([Rows(rows)])
  }

  lemma {:induction false} RowsTreeIs(rows: seq<Leaf>)
    ensures Leaves(RowsTree(rows)) == rows && Evaluate(RowsTree(rows)) == Fold(None, rows)
  {
    var node := RowsTree(rows);
    assert LeavesOfInputs(node, 0) == [] && AfterInputs(node, 0) == None;
    assert LeavesOfInputs(node, 1) == [] + rows && AfterInputs(node, 1) == Fold(None, rows);
  }

  lemma {:induction false} SplitTreeLeaves(a: seq<Leaf>, b: seq<Leaf>)
    ensures Leaves(SplitTree(a, b)) == a + b
  {
    var node := SplitTree(a, b);
    var group := node.inputs[1];
    RowsTreeIs(b);
    assert LeavesOfInputs(node, 0) == [];
    assert LeavesOfInputs(node, 1) == [] + a == a;
    assert LeavesOfChildren(group, 0) == [];
    assert LeavesOfChildren(group, 1) == [] + b == b;
    assert LeavesOfInputs(node, 2) == a + b;
  }

  lemma {:induction false} SplitTreeValue(a: seq<Leaf>, b: seq<Leaf>)
    ensures Evaluate(SplitTree(a, b)) == Step(Fold(None, a), Fold(None, b))
  {
    var node := SplitTree(a, b);
    var group := node.inputs[1];
    RowsTreeIs(b);
    assert AfterInputs(node, 0) == None;
    assert AfterInputs(node, 1) == Fold(None, a);
    assert AfterChildren(group, Fold(None, a), 0) == Fold(None, a);
    assert AfterChildren(group, Fold(None, a), 1) == Step(Fold(None, a), Fold(None, b));
    assert AfterInputs(node, 2) == AfterChildren(group, Fold(None, a), 1);
  }

  lemma {:induction false} FoldAppend(x: Option<Content>, a: seq<Leaf>, b: seq<Leaf>)
    ensures Fold(x, a + b) == Fold(Fold(x, a), b)
  {
    if b == [] {
      assert a + b == a;
    } else {
      var n := |b| - 1;
      assert (a + b)[..|a| + n] == a + b[..n];
      FoldAppend(x, a, b[..n]);
    }
  }

  function LeafMarks(leaf: Leaf): Marks {
    MarksOf(leaf.content, leaf.source)
  }

  lemma {:induction false} ProfileHead(leaves: seq<Leaf>)
    requires leaves != []
    ensures ProfileOf(leaves) == ProfileOfOne(LeafMarks(leaves[0])).Then(ProfileOf(leaves[1..]))
  {
    assert leaves == [leaves[0]] + leaves[1..] && [leaves[0]][..0] == [];
    ProfileAppend([leaves[0]], leaves[1..]);
    ProfileAssociates(ProfileOfOne(LeafMarks(leaves[0])), NO_STATES, NO_STATES);
  }

  lemma {:induction false} ProfileSplit(leaves: seq<Leaf>, i: nat)
    requires i <= |leaves|
    ensures leaves == leaves[..i] + leaves[i..]
    ensures ProfileOf(leaves) == ProfileOf(leaves[..i]).Then(ProfileOf(leaves[i..]))
  {
    assert leaves == leaves[..i] + leaves[i..];
    ProfileAppend(leaves[..i], leaves[i..]);
  }

  /** Merging into a state with a sketch adds what the other sketch holds. */
  lemma ThenSketched(x: Marks, y: Marks)
    requires x.sketch.Some? && x.Valid() && y.Valid()
    ensures x.Then(y).sketch == Some(x.sketch.value + InSketch(y.sketch))
  {
    SketchSums(x.sketch.value, multiset{}, multiset{});
  }

  /** Merging on after a sketch collects all that the sketches hold. */
  lemma {:induction false} FoldSketched(x: Option<Content>, a: seq<Leaf>, b: seq<Leaf>)
    requires Sums(Continuous, x, a) && AllRepresent(Continuous, b) && SketchIn(x).Some?
    ensures SketchIn(Fold(x, b)) == Some(SketchIn(x).value + ProfileOf(b).held)
  {
    var mine := SketchIn(x).value;
    if b == [] {
      SketchSums(mine, mine, mine);
    } else {
      var front, last := b[..|b| - 1], b[|b| - 1];
      FoldSketched(x, a, front);
      FoldThen(x, a, front, last);
      ThenSketched(MarksOf(Fold(x, front), SourceOf(a + front)), LeafMarks(last));
      SketchSums(mine, ProfileOf(front).held, InSketch(SketchIn(last.content)));
      assert ProfileOf(b).held == ProfileOf(front).held + InSketch(SketchIn(last.content));
    }
  }

  /** One leaf more. */
  lemma {:induction false} FoldThen(x: Option<Content>, a: seq<Leaf>, front: seq<Leaf>, last: Leaf)
    requires Sums(Continuous, x, a) && AllRepresent(Continuous, front)
    requires Represents(Continuous, last.content, last.source)
    ensures var before := MarksOf(Fold(x, front), SourceOf(a + front));
      && before.Valid() && LeafMarks(last).Valid()
      && SketchIn(Step(Fold(x, front), last.content)) == before.Then(LeafMarks(last)).sketch
  {
    SumsFold(Continuous, x, a, front);
    MarksMerge(Fold(x, front), SourceOf(a + front), last.content, last.source);
    ValidMarks(last.content, last.source);
  }

  /** Merging on after samples without a sketch never yields one. */
  lemma {:induction false} FoldBare(x: Option<Content>, a: seq<Leaf>, b: seq<Leaf>)
    requires Sums(Continuous, x, a) && AllRepresent(Continuous, b)
    requires SourceOf(a).samples != [] && SketchIn(x).None?
    ensures SketchIn(Fold(x, b)).None?
  {
    if b != [] {
      var front, last := b[..|b| - 1], b[|b| - 1];
      FoldBare(x, a, front);
      FoldThen(x, a, front, last);
      SourceAppend(a, front);
    }
  }

  /** What the sketches from `i` on hold, with one leaf more. */
  lemma {:induction false} HeldFrom(leaves: seq<Leaf>, i: nat)
    requires i < |leaves|
    ensures var n := |leaves| - 1;
      ProfileOf(leaves[i..]).held == ProfileOf(leaves[..n][i..]).held + InSketch(SketchIn(leaves[n].content))
  {
    var n := |leaves| - 1;
    assert leaves[i..][..n - i] == leaves[..n][i..];
  }

  lemma {:induction false} LosingIndex(leaves: seq<Leaf>) returns (i: nat)
    requires ProfileOf(leaves).loses
    ensures i < |leaves| && ProfileOfOne(LeafMarks(leaves[i])).bare && ProfileOf(leaves[i..]).held != multiset{}
  {
    var n := |leaves| - 1;
    if ProfileOf(leaves[..n]).loses {
      i := LosingIndex(leaves[..n]);
    } else {
      i := BareIndex(leaves[..n]);
    }
    HeldFrom(leaves, i);
    SketchSums(ProfileOf(leaves[..n][i..]).held, InSketch(SketchIn(leaves[n].content)), multiset{});
  }

  lemma {:induction false} BareIndex(leaves: seq<Leaf>) returns (i: nat)
    requires ProfileOf(leaves).bare
    ensures i < |leaves| && ProfileOfOne(LeafMarks(leaves[i])).bare
  {
    var n := |leaves| - 1;
    if ProfileOf(leaves[..n]).bare {
      i := BareIndex(leaves[..n]);
    } else {
      i := n;
    }
  }

  lemma {:induction false} EarlyIndex(leaves: seq<Leaf>) returns (i: nat)
    requires ProfileOf(leaves).early
    ensures i < |leaves| && ProfileOfOne(LeafMarks(leaves[i])).early && ProfileOf(leaves[..i]).lead.None?
  {
    var n := |leaves| - 1;
    if ProfileOf(leaves[..n]).early {
      i := EarlyIndex(leaves[..n]);
      assert leaves[..n][..i] == leaves[..i];
    } else {
      i := n;
    }
  }

  lemma {:induction false} LeadIndex(leaves: seq<Leaf>) returns (i: nat)
    requires ProfileOf(leaves).Unled()
    ensures i < |leaves| && ProfileOfOne(LeafMarks(leaves[i])).Unled() && ProfileOf(leaves[..i]).lead.None?
  {
    var n := |leaves| - 1;
    if ProfileOf(leaves[..n]).lead.Some? {
      i := LeadIndex(leaves[..n]);
      assert leaves[..n][..i] == leaves[..i];
    } else {
      i := n;
    }
  }

  lemma BareThen(x: Marks, p: Profile, y: Marks, q: Profile)
    requires Shaped(x, p) && Shaped(y, q) && q.Unled() && !q.early && q.first.Some? && !q.StartsSketched()
    requires p.Then(q).StartsSketched() || p.Then(q).Led()
    ensures x.sketch.Some? && x.Then(y).sketch == x.sketch
  {}

  /** The group that starts with a state without a sketch drops what later sketches hold. */
  lemma {:induction false} LosingTree(leaves: seq<Leaf>) returns (node: Node)
    requires AllRepresent(Continuous, leaves) && ProfileOf(leaves).loses
    requires ProfileOf(leaves).StartsSketched() || ProfileOf(leaves).Led()
    ensures Leaves(node) == leaves && Evaluate(node) != Fold(None, leaves)
  {
    var i := LosingIndex(leaves);
    var a, b := leaves[..i], leaves[i..];
    node := SplitTree(a, b);
    SplitTreeLeaves(a, b);
    ProfileSplit(leaves, i);
    ProfileHead(b);
    BareGroup(a, b);
  }

  lemma {:induction false} BareGroup(a: seq<Leaf>, b: seq<Leaf>)
    requires AllRepresent(Continuous, a + b)
    requires var q := ProfileOf(b);
      q.Unled() && !q.early && q.first.Some? && !q.StartsSketched() && q.held != multiset{}
    requires var p := ProfileOf(a).Then(ProfileOf(b)); p.StartsSketched() || p.Led()
    ensures Evaluate(SplitTree(a, b)) != Fold(None, a + b)
  {
    Parts(Continuous, a, b);
    FlatSums(Continuous, a);
    FlatSums(Continuous, b);
    SplitTreeValue(a, b);
    FoldAppend(None, a, b);
    BareThen(MarksOf(Fold(None, a), SourceOf(a)), ProfileOf(a), MarksOf(Fold(None, b), SourceOf(b)), ProfileOf(b));
    MarksMerge(Fold(None, a), SourceOf(a), Fold(None, b), SourceOf(b));
    FoldSketched(Fold(None, a), a, b);
    GrowsStrictly(SketchIn(Fold(None, a)).value, ProfileOf(b).held);
  }

  lemma EarlyThen(x: Marks, p: Profile, y: Marks, q: Profile)
    requires Shaped(x, p) && Shaped(y, q) && p.lead.None? && q.StartsSketched()
    requires !p.Then(q).StartsSketched() && p.Then(q).Unled()
    ensures x.Then(y).sketch.Some?
  {}

  /** The group that starts with an empty sketch brings in a sketch that the flat merge does not have. */
  lemma {:induction false} EarlyTree(leaves: seq<Leaf>) returns (node: Node)
    requires AllRepresent(Continuous, leaves) && ProfileOf(leaves).early
    requires !ProfileOf(leaves).StartsSketched() && ProfileOf(leaves).Unled()
    ensures Leaves(node) == leaves && Evaluate(node) != Fold(None, leaves)
  {
    var i := EarlyIndex(leaves);
    var a, b := leaves[..i], leaves[i..];
    node := SplitTree(a, b);
    SplitTreeLeaves(a, b);
    ProfileSplit(leaves, i);
    ProfileHead(b);
    FlatSums(Continuous, a);
    FlatSums(Continuous, b);
    SplitTreeValue(a, b);
    EarlyThen(MarksOf(Fold(None, a), SourceOf(a)), ProfileOf(a), MarksOf(Fold(None, b), SourceOf(b)), ProfileOf(b));
    MarksMerge(Fold(None, a), SourceOf(a), Fold(None, b), SourceOf(b));
    FlatUnled(leaves);
  }

  lemma UnledThen(x: Marks, p: Profile, y: Marks)
    requires Shaped(x, p) && y.Valid() && p.lead.None? && ProfileOfOne(y).Unled()
    requires p.first.Some? ==> !p.StartsSketched()
    ensures x.Then(y).counts && x.Then(y).sketch.None?
  {}

  /** A flat merge that starts without a sketch, and counts its first samples without one, has none. */
  lemma {:induction false} FlatUnled(leaves: seq<Leaf>)
    requires AllRepresent(Continuous, leaves)
    requires !ProfileOf(leaves).StartsSketched() && ProfileOf(leaves).Unled()
    ensures SketchIn(Fold(None, leaves)).None?
  {
    var i := LeadIndex(leaves);
    ProfileSplit(leaves, i);
    var a, x, c := leaves[..i], leaves[i], leaves[i + 1..];
    ThreeParts(leaves, i);
    assert !ProfileOf(a).StartsSketched();
    UnledParts(a, x, c);
  }

  lemma ThreeParts(leaves: seq<Leaf>, i: nat)
    requires i < |leaves|
    ensures leaves == leaves[..i] + [leaves[i]] + leaves[i + 1..]
  {}

  lemma {:induction false} UnledParts(a: seq<Leaf>, x: Leaf, c: seq<Leaf>)
    requires AllRepresent(Continuous, a + [x] + c)
    requires ProfileOf(a).lead.None? && !ProfileOf(a).StartsSketched() && ProfileOfOne(LeafMarks(x)).Unled()
    ensures SketchIn(Fold(None, a + [x] + c)).None?
  {
    Parts(Continuous, a + [x], c);
    Parts(Continuous, a, [x]);
    assert Represents(Continuous, [x][0].content, [x][0].source);
    FlatSums(Continuous, a);
    FlatSums(Continuous, a + [x]);
    SourceSnoc(a, x);
    ValidMarks(x.content, x.source);
    MarksMerge(Fold(None, a), SourceOf(a), x.content, x.source);
    UnledThen(MarksOf(Fold(None, a), SourceOf(a)), ProfileOf(a), LeafMarks(x));
    FoldAppend(None, a + [x], c);
    FoldBare(Fold(None, a + [x]), a + [x], c);
  }

  lemma {:induction false} SourceSnoc(a: seq<Leaf>, x: Leaf)
    ensures SourceOf(a + [x]) == Join(SourceOf(a), x.source)
    ensures Fold(None, a + [x]) == Step(Fold(None, a), x.content)
  {
    assert (a + [x])[..|a|] == a;
  }

  /** Every tree over some states equals their flat merge, sketch included, exactly when their shape is
      free. */
  lemma {:induction false} EveryTreeIsFlat(leaves: seq<Leaf>)
    requires AllRepresent(Continuous, leaves)
    ensures (forall node: Node :: Leaves(node) == leaves ==> Evaluate(node) == Fold(None, leaves))
            <==> ShapeFree(ProfileOf(leaves))
  {
    var p := ProfileOf(leaves);
    if ShapeFree(p) {
      forall node: Node | Leaves(node) == leaves
        ensures Evaluate(node) == Fold(None, leaves)
      {
        TreeIsFlat(Continuous, node);
      }
    } else if p.StartsSketched() || p.Led() {
      var node := LosingTree(leaves);
    } else {
      var node := EarlyTree(leaves);
    }
  }
}
