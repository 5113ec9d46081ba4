/** The meaning of a type id: the trees obtained by following type references n steps deep.

    Type graphs may be cyclic, so a type has no finite tree of its own; its meaning is the family of its
    n-step unfoldings, one for every n.  A forward declaration stands for any definition of its kind and
    name, so a composite or enum that the graph declares forward is seen as its declaration only.  In a
    graph without forward declarations everything is seen in full. */
module Meaning {
  import opened Btf

  datatype Tree = Cut | Node(record: Type, kids: seq<Tree>)

  /** What a declaration names. */
  datatype Tag = Tag(kind: Kind, name: nat)

  predicate IsTagged(t: Type) { t.kind == Fwd || IsComposite(t) || IsAnyEnum(t) }

  function TagOf(t: Type): Tag {
    Tag(if t.kind == Fwd then FwdKind(t) else if IsComposite(t) then t.kind else Enum, t.name)
  }

  /** The tags that the graph declares forward. */
  ghost function Declared(g: seq<Type>): set<Tag> {
    set i | 0 <= i < |g| && IsForward(g[i]) :: TagOf(g[i])
  }

  ghost predicate Hidden(fs: set<Tag>, t: Type) { IsTagged(t) && TagOf(t) in fs }

  /** A record as seen through the forward declarations fs. */
  ghost function Seen(fs: set<Tag>, t: Type): Type {
    if Hidden(fs, t) then Type(TagOf(t).kind, false, 0, 0, t.name, 0, [], [], []) else t
  }

  ghost function Unfold(fs: set<Tag>, g: seq<Type>, id: nat, n: nat): Tree
    requires ClosedRefs(g) && id < |g|
    decreases n
  {
    if n == 0 then Cut
    else
      var t := Seen(fs, g[id]);
      Node(Label(t), seq(|t.refs|, k requires 0 <= k < |t.refs| => Unfold(fs, g, t.refs[k], n - 1)))
  }

  ghost function MeaningOf(fs: set<Tag>, g: seq<Type>, id: nat): imap<nat, Tree>
    requires ClosedRefs(g) && id < |g|
  {
    imap n: nat | true :: Unfold(fs, g, id, n)
  }

  /** Two types of one graph mean the same. */
  ghost predicate Bisim(g: seq<Type>, a: nat, b: nat)
    requires ClosedRefs(g) && a < |g| && b < |g|
  {
    MeaningOf(Declared(g), g, a) == MeaningOf(Declared(g), g, b)
  }

  lemma MeaningAt(fs: set<Tag>, g: seq<Type>, a: nat, g': seq<Type>, b: nat, n: nat)
    requires ClosedRefs(g) && a < |g|
    requires ClosedRefs(g') && b < |g'|
    requires MeaningOf(fs, g, a) == MeaningOf(fs, g', b)
    ensures Unfold(fs, g, a, n) == Unfold(fs, g', b, n)
  {
    assert MeaningOf(fs, g, a)[n] == MeaningOf(fs, g', b)[n];
  }

  lemma BisimAt(g: seq<Type>, a: nat, b: nat, n: nat)
    requires ClosedRefs(g) && a < |g| && b < |g| && Bisim(g, a, b)
    ensures Unfold(Declared(g), g, a, n) == Unfold(Declared(g), g, b, n)
  {
    MeaningAt(Declared(g), g, a, g, b, n);
  }

  lemma BisimSymmetric(g: seq<Type>, a: nat, b: nat)
    requires ClosedRefs(g) && a < |g| && b < |g| && Bisim(g, a, b)
    ensures Bisim(g, b, a)
  {
  }

  lemma MeaningEqual(fs: set<Tag>, g: seq<Type>, a: nat, g': seq<Type>, b: nat)
    requires ClosedRefs(g) && a < |g|
    requires ClosedRefs(g') && b < |g'|
    requires forall n: nat :: Unfold(fs, g, a, n) == Unfold(fs, g', b, n)
    ensures MeaningOf(fs, g, a) == MeaningOf(fs, g', b)
  {
  }

  /** The references of a and b unfold to the same trees. */
  ghost predicate SameKids(fs: set<Tag>, g: seq<Type>, a: nat, g': seq<Type>, b: nat, n: nat)
    requires ClosedRefs(g) && a < |g|
    requires ClosedRefs(g') && b < |g'|
  {
    && |g[a].refs| == |g'[b].refs|
    && forall k :: 0 <= k < |g[a].refs| ==> Unfold(fs, g, g[a].refs[k], n) == Unfold(fs, g', g'[b].refs[k], n)
  }

  /** Agreement of labels and of all children at depth n gives agreement at depth n + 1. */
  lemma UnfoldStep(fs: set<Tag>, g: seq<Type>, a: nat, g': seq<Type>, b: nat, n: nat)
    requires ClosedRefs(g) && a < |g|
    requires ClosedRefs(g') && b < |g'|
    requires Label(g[a]) == Label(g'[b]) && SameKids(fs, g, a, g', b, n)
    ensures Unfold(fs, g, a, n + 1) == Unfold(fs, g', b, n + 1)
  {
    SeenLabel(fs, g[a], g'[b]);
    assert Unfold(fs, g, a, n + 1).kids == Unfold(fs, g', b, n + 1).kids;
  }

  lemma SeenLabel(fs: set<Tag>, t: Type, u: Type)
    requires Label(t) == Label(u)
    ensures Hidden(fs, t) == Hidden(fs, u) && Label(Seen(fs, t)) == Label(Seen(fs, u))
  {
    assert t.kind == Label(u).kind == u.kind && t.name == Label(u).name == u.name && t.kflag == Label(u).kflag == u.kflag;
  }

  /** Two records that a forward declaration makes indistinguishable. */
  ghost predicate SameDeclaration(g: seq<Type>, a: nat, b: nat)
    requires a < |g| && b < |g|
  {
    Hidden(Declared(g), g[a]) && Hidden(Declared(g), g[b]) && TagOf(g[a]) == TagOf(g[b])
  }

  lemma SameDeclarationBisim(g: seq<Type>, a: nat, b: nat)
    requires ClosedRefs(g) && a < |g| && b < |g| && SameDeclaration(g, a, b)
    ensures Bisim(g, a, b)
  {
    var fs := Declared(g);
    assert Seen(fs, g[a]) == Seen(fs, g[b]);
    forall n: nat ensures Unfold(fs, g, a, n) == Unfold(fs, g, b, n) { }
    MeaningEqual(fs, g, a, g, b);
  }

  /** A forward declaration means the same as every type it may stand for. */
  lemma ForwardBisim(g: seq<Type>, f: nat, b: nat)
    requires ClosedRefs(g) && f < |g| && b < |g| && IsForward(g[f]) && IsTagged(g[b]) && TagOf(g[f]) == TagOf(g[b])
    ensures SameDeclaration(g, f, b) && SameDeclaration(g, b, f) && Bisim(g, f, b) && Bisim(g, b, f)
  {
    SameDeclarationBisim(g, f, b);
  }

  /** Without forward declarations nothing is hidden. */
  lemma AllSeen(g: seq<Type>, t: Type)
    requires NoForwards(g)
    ensures Declared(g) == {} && Seen(Declared(g), t) == t
  {
  }

  /** Everything reachable within n steps, with nothing left out. */
  ghost function FullTree(g: seq<Type>, id: nat, n: nat): Tree
    requires ClosedRefs(g) && id < |g|
    decreases n
  {
    if n == 0 then Cut
    else
      var t := g[id];
      Node(Label(t), seq(|t.refs|, k requires 0 <= k < |t.refs| => FullTree(g, t.refs[k], n - 1)))
  }

  lemma {:induction false} FullUnfold(g0: seq<Type>, g: seq<Type>, id: nat, n: nat)
    requires NoForwards(g0) && ClosedRefs(g) && id < |g|
    ensures Unfold(Declared(g0), g, id, n) == FullTree(g, id, n)
    decreases n
  {
    if n > 0 {
      AllSeen(g0, g[id]);
      var t := g[id];
      forall k | 0 <= k < |t.refs| ensures Unfold(Declared(g0), g, t.refs[k], n - 1) == FullTree(g, t.refs[k], n - 1) {
        FullUnfold(g0, g, t.refs[k], n - 1);
      }
      assert Unfold(Declared(g0), g, id, n).kids == FullTree(g, id, n).kids;
    }
  }

  lemma DeclaredByLabels(g: seq<Type>, g': seq<Type>)
    requires |g| == |g'| && forall i :: 0 <= i < |g| ==> Label(g[i]) == Label(g'[i])
    ensures Declared(g) == Declared(g')
  {
    forall i | 0 <= i < |g| ensures IsForward(g[i]) == IsForward(g'[i]) && TagOf(g[i]) == TagOf(g'[i]) {
      assert g[i] == g'[i].(refs := g[i].refs);
    }
    forall t ensures t in Declared(g) <==> t in Declared(g') {
      if t in Declared(g) {
        var i :| 0 <= i < |g| && IsForward(g[i]) && TagOf(g[i]) == t;
        assert IsForward(g'[i]) && TagOf(g'[i]) == t;
      }
      if t in Declared(g') {
        var i :| 0 <= i < |g'| && IsForward(g'[i]) && TagOf(g'[i]) == t;
        assert IsForward(g[i]) && TagOf(g[i]) == t;
      }
    }
  }

  lemma EqualRecordsBisim(g: seq<Type>, a: nat, b: nat)
    requires ClosedRefs(g) && a < |g| && b < |g|
    requires g[a] == g[b]
    ensures Bisim(g, a, b)
  {
    MeaningEqual(Declared(g), g, a, g, b);
  }

  // ----- Hypothetical maps as bisimulations -------------------------------------------------------

  /** A hypothetical map sends a canonical id to the candidate id assumed equivalent to it. */
  predicate InHypot(hy: seq<nat>, b: nat) { b < |hy| && hy[b] <= MAX_NR_TYPES }

  ghost predicate HypotInRange(g: seq<Type>, hy: seq<nat>) {
    |hy| == |g| && forall b :: 0 <= b < |hy| && InHypot(hy, b) ==> hy[b] < |g|
  }

  /** A type equivalent to b is assumed equivalent to something equivalent to a. */
  ghost predicate AssumedBy(g: seq<Type>, hy: seq<nat>, a: nat, b: nat, c: nat)
    requires ClosedRefs(g) && HypotInRange(g, hy) && a < |g| && b < |g|
  {
    c < |g| && InHypot(hy, c) && Bisim(g, c, b) && Bisim(g, hy[c], a)
  }

  /** a and b are known or assumed equivalent. */
  ghost predicate Related(g: seq<Type>, hy: seq<nat>, a: nat, b: nat)
    requires ClosedRefs(g) && HypotInRange(g, hy) && a < |g| && b < |g|
  {
    Bisim(g, a, b) || exists c :: AssumedBy(g, hy, a, b, c)
  }

  lemma AssumedAlong(g: seq<Type>, hy: seq<nat>, a: nat, b: nat)
    requires ClosedRefs(g) && HypotInRange(g, hy) && a < |g| && b < |g| && InHypot(hy, b) && Bisim(g, hy[b], a)
    ensures Related(g, hy, a, b)
  {
    assert AssumedBy(g, hy, a, b, b);
  }

  lemma AssumedIsRelated(g: seq<Type>, hy: seq<nat>, a: nat, b: nat)
    requires ClosedRefs(g) && HypotInRange(g, hy) && a < |g| && b < |g| && InHypot(hy, b) && hy[b] == a
    ensures Related(g, hy, a, b)
  {
    AssumedAlong(g, hy, a, b);
  }

  lemma RelatedAlong(g: seq<Type>, hy: seq<nat>, a: nat, b: nat, b': nat)
    requires ClosedRefs(g) && HypotInRange(g, hy) && a < |g| && b < |g| && b' < |g| && Bisim(g, b, b')
    requires Related(g, hy, a, b)
    ensures Related(g, hy, a, b')
  {
    if !Bisim(g, a, b) {
      var c: nat :| AssumedBy(g, hy, a, b, c);
      assert AssumedBy(g, hy, a, b', c);
    }
  }

  lemma RelatedMonotone(g: seq<Type>, hy: seq<nat>, hy': seq<nat>, a: nat, b: nat)
    requires ClosedRefs(g) && HypotInRange(g, hy) && HypotInRange(g, hy') && a < |g| && b < |g|
    requires Extends(hy, hy') && Related(g, hy, a, b)
    ensures Related(g, hy', a, b)
  {
    if !Bisim(g, a, b) {
      var c: nat :| AssumedBy(g, hy, a, b, c);
      assert AssumedBy(g, hy', a, b, c);
    }
  }

  /** The assumption made for b has been justified one level deep. */
  ghost predicate Justified(g: seq<Type>, hy: seq<nat>, b: nat)
    requires ClosedRefs(g) && HypotInRange(g, hy) && b < |g| && InHypot(hy, b)
  {
    SameDeclaration(g, hy[b], b) || SimilarRecords(g, hy, hy[b], b)
  }

  ghost predicate SimilarRecords(g: seq<Type>, hy: seq<nat>, a: nat, b: nat)
    requires ClosedRefs(g) && HypotInRange(g, hy) && a < |g| && b < |g|
  {
    && Label(g[a]) == Label(g[b]) && |g[a].refs| == |g[b].refs|
    && forall k :: 0 <= k < |g[a].refs| ==> Related(g, hy, g[a].refs[k], g[b].refs[k])
  }

  ghost predicate Extends(hy: seq<nat>, hy': seq<nat>) {
    |hy| == |hy'| && forall b :: 0 <= b < |hy| && InHypot(hy, b) ==> hy'[b] == hy[b]
  }

  lemma JustifiedMonotone(g: seq<Type>, hy: seq<nat>, hy': seq<nat>, b: nat)
    requires ClosedRefs(g) && HypotInRange(g, hy) && HypotInRange(g, hy')
    requires b < |g| && InHypot(hy, b) && Extends(hy, hy') && Justified(g, hy, b)
    ensures Justified(g, hy', b)
  {
    hide Bisim, SameDeclaration;
    var a := hy[b];
    if SimilarRecords(g, hy, a, b) {
      forall k | 0 <= k < |g[a].refs| ensures Related(g, hy', g[a].refs[k], g[b].refs[k]) {
        RelatedMonotone(g, hy, hy', g[a].refs[k], g[b].refs[k]);
      }
    }
  }

  /** A hypothetical map whose every entry is justified relates only types of equal meaning. */
  lemma JustifiedIsBisim(g: seq<Type>, hy: seq<nat>)
    requires ClosedRefs(g) && HypotInRange(g, hy)
    requires forall b :: 0 <= b < |hy| && InHypot(hy, b) ==> Justified(g, hy, b)
    ensures forall b :: 0 <= b < |hy| && InHypot(hy, b) ==> Bisim(g, hy[b], b)
  {
    forall b | 0 <= b < |hy| && InHypot(hy, b) ensures Bisim(g, hy[b], b) {
      forall n: nat ensures Unfold(Declared(g), g, hy[b], n) == Unfold(Declared(g), g, b, n) {
        JustifiedUnfold(g, hy, b, n);
      }
      MeaningEqual(Declared(g), g, hy[b], g, b);
    }
  }

  lemma {:induction false} JustifiedUnfold(g: seq<Type>, hy: seq<nat>, b: nat, n: nat)
    requires ClosedRefs(g) && HypotInRange(g, hy)
    requires forall b :: 0 <= b < |hy| && InHypot(hy, b) ==> Justified(g, hy, b)
    requires b < |hy| && InHypot(hy, b)
    ensures Unfold(Declared(g), g, hy[b], n) == Unfold(Declared(g), g, b, n)
    decreases n, 0
  {
    var fs, a := Declared(g), hy[b];
    if SameDeclaration(g, a, b) {
      SameDeclarationBisim(g, a, b);
      MeaningAt(fs, g, a, g, b, n);
    } else if n > 0 {
      assert Justified(g, hy, b);
      SimilarKids(g, hy, a, b, n - 1);
      hide Unfold, Declared, SameKids, ClosedRefs, Justified;
      UnfoldStep(fs, g, a, g, b, n - 1);
    }
  }

  lemma {:induction false} SimilarKids(g: seq<Type>, hy: seq<nat>, a: nat, b: nat, n: nat)
    requires ClosedRefs(g) && HypotInRange(g, hy) && a < |g| && b < |g| && SimilarRecords(g, hy, a, b)
    requires forall b :: 0 <= b < |hy| && InHypot(hy, b) ==> Justified(g, hy, b)
    ensures SameKids(Declared(g), g, a, g, b, n)
    decreases n, 2
  {
    hide Unfold, Declared, Justified, Related;
    forall k | 0 <= k < |g[a].refs|
      ensures Unfold(Declared(g), g, g[a].refs[k], n) == Unfold(Declared(g), g, g[b].refs[k], n)
    {
      RelatedUnfold(g, hy, g[a].refs[k], g[b].refs[k], n);
    }
  }

  lemma {:induction false} RelatedUnfold(g: seq<Type>, hy: seq<nat>, a: nat, b: nat, n: nat)
    requires ClosedRefs(g) && HypotInRange(g, hy) && a < |g| && b < |g| && Related(g, hy, a, b)
    requires forall b :: 0 <= b < |hy| && InHypot(hy, b) ==> Justified(g, hy, b)
    ensures Unfold(Declared(g), g, a, n) == Unfold(Declared(g), g, b, n)
    decreases n, 1
  {
    hide Bisim, Unfold, Declared, Justified, ClosedRefs;
    if Bisim(g, a, b) {
      BisimAt(g, a, b, n);
    } else {
      var c: nat :| AssumedBy(g, hy, a, b, c);
      JustifiedUnfold(g, hy, c, n);
      BisimAt(g, c, b, n);
      BisimAt(g, hy[c], a, n);
    }
  }

  // ----- Rewriting references ---------------------------------------------------------------------

  /** Record i of g' is record i of g with references replaced by ones of the same meaning in g. */
  ghost predicate RewrittenFrom(g: seq<Type>, g': seq<Type>, i: nat)
    requires ClosedRefs(g) && ClosedRefs(g') && |g| == |g'| && i < |g|
  {
    && Label(g[i]) == Label(g'[i]) && |g[i].refs| == |g'[i].refs|
    && forall k :: 0 <= k < |g[i].refs| ==> Bisim(g, g[i].refs[k], g'[i].refs[k])
  }

  ghost predicate MeaningKept(g: seq<Type>, g': seq<Type>)
    requires ClosedRefs(g) && ClosedRefs(g') && |g| == |g'|
  {
    forall i :: 0 <= i < |g| ==> RewrittenFrom(g, g', i)
  }

  lemma {:induction false} RewriteUnfold(g: seq<Type>, g': seq<Type>, id: nat, n: nat)
    requires ClosedRefs(g) && ClosedRefs(g') && |g| == |g'| && id < |g| && MeaningKept(g, g')
    ensures Unfold(Declared(g), g, id, n) == Unfold(Declared(g), g', id, n)
    decreases n, 0
  {
    if n > 0 {
      assert RewrittenFrom(g, g', id);
      RewriteKids(g, g', id, n - 1);
      hide MeaningKept, RewrittenFrom, SameKids, ClosedRefs, Unfold, Declared;
      UnfoldStep(Declared(g), g, id, g', id, n - 1);
    }
  }

  lemma {:induction false} RewriteKids(g: seq<Type>, g': seq<Type>, id: nat, n: nat)
    requires ClosedRefs(g) && ClosedRefs(g') && |g| == |g'| && id < |g| && MeaningKept(g, g') && RewrittenFrom(g, g', id)
    ensures SameKids(Declared(g), g, id, g', id, n)
    decreases n, 1
  {
    hide MeaningKept, Bisim, Unfold, Declared;
    forall k | 0 <= k < |g[id].refs|
      ensures Unfold(Declared(g), g, g[id].refs[k], n) == Unfold(Declared(g), g', g'[id].refs[k], n)
    {
      BisimAt(g, g[id].refs[k], g'[id].refs[k], n);
      RewriteUnfold(g, g', g'[id].refs[k], n);
    }
  }

  /** Replacing references by equivalent ones changes no meaning. */
  lemma RewriteKeepsMeaning(g: seq<Type>, g': seq<Type>, id: nat)
    requires ClosedRefs(g) && ClosedRefs(g') && |g| == |g'| && id < |g| && MeaningKept(g, g')
    ensures Declared(g) == Declared(g') && MeaningOf(Declared(g), g, id) == MeaningOf(Declared(g), g', id)
  {
    assert forall i :: 0 <= i < |g| ==> RewrittenFrom(g, g', i) && Label(g[i]) == Label(g'[i]);
    DeclaredByLabels(g, g');
    hide MeaningKept, ClosedRefs, Declared, Unfold;
    forall n: nat ensures Unfold(Declared(g), g, id, n) == Unfold(Declared(g), g', id, n) { RewriteUnfold(g, g', id, n); }
    MeaningEqual(Declared(g), g, id, g', id);
  }

  // ----- Renumbering ------------------------------------------------------------------------------

  /** y is the place of a type that means the same as x. */
  ghost predicate PlaceFor(g: seq<Type>, place: seq<nat>, x: nat, y: nat)
    requires ClosedRefs(g) && |place| == |g| && x < |g|
  {
    exists j :: 0 <= j < |g| && Bisim(g, x, j) && y == place[j]
  }

  /** Type i of g is represented in out by record place[i]: that record is type r, of the same meaning as
      i, with every reference replaced by a place for it. */
  ghost predicate RepresentedBy(g: seq<Type>, out: seq<Type>, place: seq<nat>, i: nat, r: nat)
    requires ClosedRefs(g) && |place| == |g| && i < |g|
  {
    && r < |g| && Bisim(g, i, r) && place[i] < |out|
    && Label(g[r]) == Label(out[place[i]]) && |g[r].refs| == |out[place[i]].refs|
    && forall k :: 0 <= k < |g[r].refs| ==> PlaceFor(g, place, g[r].refs[k], out[place[i]].refs[k])
  }

  ghost predicate AllRepresented(g: seq<Type>, out: seq<Type>, place: seq<nat>, rep: seq<nat>)
    requires ClosedRefs(g)
  {
    && ClosedRefs(out) && |place| == |rep| == |g|
    && forall j :: 0 <= j < |g| ==> RepresentedBy(g, out, place, j, rep[j])
  }

  lemma {:induction false} RenumberUnfold(g: seq<Type>, out: seq<Type>, place: seq<nat>, rep: seq<nat>, i: nat, n: nat)
    requires ClosedRefs(g) && AllRepresented(g, out, place, rep) && i < |g|
    ensures place[i] < |out| && Unfold(Declared(g), g, i, n) == Unfold(Declared(g), out, place[i], n)
    decreases n, 1
  {
    hide Bisim, Unfold, Declared, AllRepresented, RepresentedBy, PlaceFor, ClosedRefs, SameKids;
    RepresentedAt(g, out, place, rep, i);
    var fs, r := Declared(g), rep[i];
    if n == 0 {
      UnfoldZero(fs, g, i, out, place[i]);
    } else {
      RenumberKids(g, out, place, rep, i, r, n - 1);
      BisimAt(g, i, r, n);
      UnfoldStep(fs, g, r, out, place[i], n - 1);
    }
  }

  lemma UnfoldZero(fs: set<Tag>, g: seq<Type>, a: nat, g': seq<Type>, b: nat)
    requires ClosedRefs(g) && a < |g| && ClosedRefs(g') && b < |g'|
    ensures Unfold(fs, g, a, 0) == Unfold(fs, g', b, 0)
  {
  }

  lemma RepresentedAt(g: seq<Type>, out: seq<Type>, place: seq<nat>, rep: seq<nat>, i: nat)
    requires ClosedRefs(g) && AllRepresented(g, out, place, rep) && i < |g|
    ensures |place| == |rep| == |g| && ClosedRefs(out) && RepresentedBy(g, out, place, i, rep[i])
    ensures rep[i] < |g| && place[i] < |out| && Bisim(g, i, rep[i]) && Label(g[rep[i]]) == Label(out[place[i]])
  {
    hide PlaceFor, ClosedRefs, Bisim;
    assert RepresentedBy(g, out, place, i, rep[i]);
  }

  lemma {:induction false} RenumberKids(g: seq<Type>, out: seq<Type>, place: seq<nat>, rep: seq<nat>, i: nat, r: nat, n: nat)
    requires ClosedRefs(g) && AllRepresented(g, out, place, rep) && i < |g| && RepresentedBy(g, out, place, i, r)
    ensures ClosedRefs(out) && SameKids(Declared(g), g, r, out, place[i], n)
    decreases n, 3
  {
    assert ClosedRefs(out);
    hide Bisim, Unfold, Declared, AllRepresented, PlaceFor;
    forall k | 0 <= k < |g[r].refs|
      ensures Unfold(Declared(g), g, g[r].refs[k], n) == Unfold(Declared(g), out, out[place[i]].refs[k], n)
    {
      PlaceUnfold(g, out, place, rep, g[r].refs[k], out[place[i]].refs[k], n);
    }
  }

  lemma {:induction false} PlaceUnfold(g: seq<Type>, out: seq<Type>, place: seq<nat>, rep: seq<nat>, x: nat, y: nat, n: nat)
    requires ClosedRefs(g) && AllRepresented(g, out, place, rep) && x < |g| && PlaceFor(g, place, x, y)
    ensures y < |out| && Unfold(Declared(g), g, x, n) == Unfold(Declared(g), out, y, n)
    decreases n, 2
  {
    var j :| 0 <= j < |g| && Bisim(g, x, j) && y == place[j];
    hide Bisim, Unfold, Declared, RepresentedBy, ClosedRefs;
    BisimAt(g, x, j, n);
    RenumberUnfold(g, out, place, rep, j, n);
  }

  /** Replacing every type by its place changes no meaning. */
  lemma RenumberKeepsMeaning(g: seq<Type>, out: seq<Type>, place: seq<nat>, rep: seq<nat>, i: nat)
    requires ClosedRefs(g) && AllRepresented(g, out, place, rep) && i < |g|
    ensures place[i] < |out| && MeaningOf(Declared(g), g, i) == MeaningOf(Declared(g), out, place[i])
  {
    assert RepresentedBy(g, out, place, i, rep[i]);
    hide RepresentedBy, Unfold;
    forall n: nat ensures Unfold(Declared(g), g, i, n) == Unfold(Declared(g), out, place[i], n) {
      RenumberUnfold(g, out, place, rep, i, n);
    }
    MeaningEqual(Declared(g), g, i, out, place[i]);
  }
}
