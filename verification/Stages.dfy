/** What holds between the passes of deduplication: which ids have been mapped, what the table of
    candidates contains, and which duplicates can no longer occur. */
module Stages {
  import opened Btf
  import opened Meaning
  import opened Links
  import opened Equiv
  import opened HashMaps
  import opened Names

  // ----- The candidate table ----------------------------------------------------------------------

  /** Table entries are filed under their hash and, forward declarations aside, are representatives. */
  ghost predicate TableSound(g: seq<Type>, m: seq<nat>, tbl: multiset<Entry>)
    requires |m| == |g|
  {
    forall e :: e in tbl ==> EntrySound(g, m, e)
  }

  ghost predicate EntrySound(g: seq<Type>, m: seq<nat>, e: Entry)
    requires |m| == |g|
  {
    && 0 <= e.value < |g| && e.key == HashOf(g[e.value])
    && (IsForward(g[e.value]) || m[e.value] == e.value)
  }

  ghost predicate TableInRange(tbl: multiset<Entry>, n: nat) {
    forall e :: e in tbl ==> 0 <= e.value < n
  }

  lemma SoundInRange(g: seq<Type>, m: seq<nat>, tbl: multiset<Entry>)
    requires |m| == |g| && TableSound(g, m, tbl)
    ensures TableInRange(tbl, |g|)
  {
    hide HashOf;
    forall e | e in tbl ensures 0 <= e.value < |g| { assert EntrySound(g, m, e); }
  }

  /** The primitives in the table lie below p. */
  ghost predicate TablePrimsBelow(g: seq<Type>, tbl: multiset<Entry>, p: nat) {
    forall e :: e in tbl ==> 0 <= e.value < |g| && (IsPrim(g[e.value]) ==> e.value < p)
  }

  predicate Listed(g: seq<Type>, tbl: multiset<Entry>, i: nat)
    requires i < |g|
  {
    Entry(HashOf(g[i]), i) in tbl
  }

  // ----- Primitive types --------------------------------------------------------------------------

  ghost predicate PrimsMapped(g: seq<Type>, m: seq<nat>, p: nat)
    requires |m| == |g|
  {
    forall i :: 0 <= i < p && i < |g| && IsPrim(g[i]) ==> IsMapped(m, i)
  }

  /** Representative primitives below p can be found in the table. */
  ghost predicate PrimsListed(g: seq<Type>, m: seq<nat>, tbl: multiset<Entry>, p: nat)
    requires |m| == |g|
  {
    forall i :: 0 <= i < p && i < |g| && IsPrim(g[i]) && m[i] == i ==> Listed(g, tbl, i)
  }

  /** Two enums of one name, one of which is only declared. */
  predicate DeclaredEnum(a: Type, b: Type) {
    IsAnyEnum(a) && IsAnyEnum(b) && a.name == b.name && (IsEnumFwd(a) || IsEnumFwd(b))
  }

  predicate Apart(a: Type, b: Type) { a != b && !DeclaredEnum(a, b) }

  /** No two representative primitives below p are equal, and no enum is both declared and defined by
      representatives, unless both belong to the base. */
  ghost predicate PrimsDistinct(g: seq<Type>, m: seq<nat>, start: nat, p: nat)
    requires |m| == |g|
  {
    forall i, j :: 0 <= i < j < p && j < |g| && start <= j && IsPrim(g[j]) && m[i] == i && m[j] == j ==> Apart(g[i], g[j])
  }

  /** Enums that differ are compatible exactly when one of them is only declared. */
  lemma CompatibleEnums(a: Type, b: Type)
    requires WellFormed(a) && WellFormed(b) && IsAnyEnum(a) && a != b
    ensures CompatEnum(a, b) <==> DeclaredEnum(a, b)
  {
  }

  lemma EnumsShareHash(a: Type, b: Type)
    requires DeclaredEnum(a, b)
    ensures HashOf(a) == HashOf(b)
  {
  }

  // ----- Composite types --------------------------------------------------------------------------

  ghost predicate CompositesMapped(g: seq<Type>, m: seq<nat>, p: nat)
    requires |m| == |g|
  {
    forall i :: 0 <= i < p && i < |g| && IsComposite(g[i]) ==> IsMapped(m, i)
  }

  /** No composite from p on is a representative yet. */
  ghost predicate CompositesOpen(g: seq<Type>, m: seq<nat>, p: nat)
    requires |m| == |g|
  {
    forall i :: p <= i < |g| && IsComposite(g[i]) ==> m[i] != i
  }

  ghost predicate CompositesListed(g: seq<Type>, m: seq<nat>, tbl: multiset<Entry>, p: nat)
    requires |m| == |g|
  {
    forall i :: 0 <= i < p && i < |g| && IsComposite(g[i]) && m[i] == i ==> Listed(g, tbl, i)
  }

  /** No representative composite is a morphic image of an earlier one, unless both belong to the base. */
  ghost predicate CompositesDistinct(g: seq<Type>, m: seq<nat>, start: nat, p: nat)
    requires |m| == |g|
  {
    forall i, j :: 0 <= i < j < p && j < |g| && start <= j && BothRepresent(g, m, i, j) ==> ComparedUnequal(g, m, i, j)
  }

  /** With the forward declarations that were resolved when j was compared with i, no morphism sends i to j. */
  ghost predicate ComparedUnequal(g: seq<Type>, m: seq<nat>, i: nat, j: nat)
    requires |m| == |g|
  {
    exists m0 :: WellLinked(g, m0) && ResolvesLess(g, m0, m) && NoMorphism(g, Resolution(g, m0), i, j)
  }

  /** Forward declarations that stand for themselves under m do so under m0. */
  ghost predicate ResolvesLess(g: seq<Type>, m0: seq<nat>, m: seq<nat>)
    requires |m| == |g|
  {
    |m0| == |g| && forall i :: 0 <= i < |g| && g[i].kind == Fwd && m[i] == i ==> m0[i] == i
  }

  lemma ComparedStays(g: seq<Type>, m: seq<nat>, m': seq<nat>, i: nat, j: nat)
    requires |m| == |m'| == |g| && ComparedUnequal(g, m, i, j) && ResolvesLess(g, m, m')
    ensures ComparedUnequal(g, m', i, j)
  {
    hide NoMorphism;
    var m0 :| WellLinked(g, m0) && ResolvesLess(g, m0, m) && NoMorphism(g, Resolution(g, m0), i, j);
    assert ResolvesLess(g, m0, m');
  }

  lemma DistinctStays(g: seq<Type>, m: seq<nat>, m': seq<nat>, start: nat, p: nat)
    requires |m| == |m'| == |g| && CompositesDistinct(g, m, start, p) && forall i :: 0 <= i < |g| && m'[i] == i ==> m[i] == i
    ensures CompositesDistinct(g, m', start, p)
  {
    hide ComparedUnequal;
    forall i, j | 0 <= i < j < p && j < |g| && start <= j && BothRepresent(g, m', i, j) ensures ComparedUnequal(g, m', i, j) {
      assert BothRepresent(g, m, i, j);
      ComparedStays(g, m, m', i, j);
    }
  }

  /** f keeps labels, and the k-th reference of b goes to the k-th reference of f[b]. */
  ghost predicate PlainMorphism(g: seq<Type>, f: map<nat, nat>) {
    forall b :: b in f ==>
      && b < |g| && f[b] < |g| && Label(g[f[b]]) == Label(g[b]) && |g[f[b]].refs| == |g[b].refs|
      && forall k :: 0 <= k < |g[b].refs| ==> g[b].refs[k] in f && f[g[b].refs[k]] == g[f[b]].refs[k]
  }

  /** Without forward declarations there is nothing to resolve: no map that keeps labels and references
      sends i to j. */
  lemma NoPlainMorphism(g: seq<Type>, m: seq<nat>, i: nat, j: nat, f: map<nat, nat>)
    requires NoForwards(g) && ClosedRefs(g) && |m| == |g| && ComparedUnequal(g, m, i, j) && PlainMorphism(g, f) && i in f
    ensures f[i] != j
  {
    var m0 :| WellLinked(g, m0) && ResolvesLess(g, m0, m) && NoMorphism(g, Resolution(g, m0), i, j);
    var res := Resolution(g, m0);
    assert res == seq(|g|, b => b) by {
      forall b | 0 <= b < |g| ensures res[b] == b { assert res[b] == StandsFor(g, m0, b); }
    }
    hide WellLinked, StandsFor, Resolution;
    forall b | b in f ensures b < |g| && f[b] < |g| && MorphismAt(g, res, f, b) {
      forall k | 0 <= k < |g[b].refs| ensures Goes(res, f, g[b].refs[k], g[f[b]].refs[k]) { }
    }
    assert Morphism(g, res, f);
  }

  predicate BothRepresent(g: seq<Type>, m: seq<nat>, i: nat, j: nat)
    requires |m| == |g| && i < |g| && j < |g|
  {
    IsComposite(g[i]) && IsComposite(g[j]) && m[i] == i && m[j] == j
  }

  // ----- Everything else --------------------------------------------------------------------------

  /** Void and the pinned kinds are representatives from the beginning. */
  ghost predicate PinnedFixed(g: seq<Type>, m: seq<nat>)
    requires |m| == |g|
  {
    forall i :: 0 <= i < |g| && (g[i].kind == Void || IsPinned(g[i])) ==> m[i] == i
  }

  /** Base types are mapped, to themselves unless they are forward declarations; reference types outside
      the base are untouched. */
  ghost predicate RefsUntouched(g: seq<Type>, m: seq<nat>, start: nat)
    requires |m| == |g|
  {
    && (forall i :: 0 <= i < |g| && i < start ==> m[i] <= MAX_NR_TYPES && (!IsForward(g[i]) ==> m[i] == i))
    && (forall i :: start <= i < |g| && IsRef(g[i]) ==> m[i] == UNPROCESSED_ID)
  }

  /** Reference types of the base are candidates from the beginning. */
  ghost predicate BaseRefsListed(g: seq<Type>, tbl: multiset<Entry>, start: nat) {
    forall i :: 0 <= i < start && i < |g| && IsRef(g[i]) ==> Listed(g, tbl, i)
  }

  lemma BaseRefsKept(g: seq<Type>, tbl0: multiset<Entry>, tbl: multiset<Entry>, start: nat)
    requires BaseRefsListed(g, tbl0, start) && tbl0 <= tbl
    ensures BaseRefsListed(g, tbl, start)
  {
    hide HashOf;
    forall i | 0 <= i < start && i < |g| && IsRef(g[i]) ensures Listed(g, tbl, i) { assert Listed(g, tbl0, i); }
  }

  ghost predicate PrimPart(g: seq<Type>, m: seq<nat>, tbl: multiset<Entry>, start: nat, p: nat)
    requires |m| == |g|
  {
    && TablePrimsBelow(g, tbl, p)
    && PrimsMapped(g, m, p) && PrimsListed(g, m, tbl, p) && PrimsDistinct(g, m, start, p)
  }

  ghost predicate CompositePart(g: seq<Type>, m: seq<nat>, tbl: multiset<Entry>, start: nat, p: nat)
    requires |m| == |g|
  {
    && CompositesMapped(g, m, p) && CompositesOpen(g, m, p) && CompositesListed(g, m, tbl, p)
    && (BaseDefined(g, start) ==> CompositesDistinct(g, m, start, p))
  }

  ghost predicate FixedPart(g: seq<Type>, m: seq<nat>, start: nat)
    requires |m| == |g|
  {
    PinnedFixed(g, m) && RefsUntouched(g, m, start)
  }

  /** The state before the reference pass: primitives below primTo and composites below compTo are done. */
  ghost predicate Stage(g: seq<Type>, m: seq<nat>, tbl: multiset<Entry>, start: nat, primTo: nat, compTo: nat)
    requires |m| == |g|
  {
    && TableSound(g, m, tbl)
    && PrimPart(g, m, tbl, start, primTo)
    && CompositePart(g, m, tbl, start, compTo)
    && FixedPart(g, m, start) && BaseRefsListed(g, tbl, start)
  }

  // ----- One step of the primitive pass -----------------------------------------------------------

  lemma StageTable(g: seq<Type>, m: seq<nat>, tbl: multiset<Entry>, start: nat, primTo: nat, compTo: nat)
    requires |m| == |g| && Stage(g, m, tbl, start, primTo, compTo)
    ensures TableSound(g, m, tbl) && TablePrimsBelow(g, tbl, primTo)
  {
  }

  /** From m0 to m, some forward declarations of enums were redirected to id. */
  ghost predicate Redirected(g: seq<Type>, m0: seq<nat>, m: seq<nat>, id: nat)
    requires |m0| == |m| == |g|
  {
    forall i :: 0 <= i < |g| ==> m[i] == m0[i] || (IsEnumFwd(g[i]) && m[i] == id)
  }

  /** From m0 to m, primitive id was linked to target and some forward declarations of enums to id. */
  ghost predicate PrimWrites(g: seq<Type>, m0: seq<nat>, m: seq<nat>, id: nat, target: nat)
    requires |m0| == |m| == |g|
  {
    && id < |g| && IsPrim(g[id]) && target < |g| && m[id] == target
    && forall i :: 0 <= i < |g| && i != id ==> m[i] == m0[i] || (IsEnumFwd(g[i]) && m[i] == id)
  }

  lemma PrimStepTable(g: seq<Type>, m0: seq<nat>, m: seq<nat>, tbl0: multiset<Entry>, tbl: multiset<Entry>,
                      id: nat, target: nat)
    requires |m0| == |m| == |g| && PrimWrites(g, m0, m, id, target)
    requires TableSound(g, m0, tbl0) && TablePrimsBelow(g, tbl0, id)
    requires tbl == if target == id then tbl0 + multiset{Entry(HashOf(g[id]), id)} else tbl0
    ensures TableSound(g, m, tbl)
  {
    forall e | e in tbl ensures EntrySound(g, m, e) {
      if e in tbl0 { assert EntrySound(g, m0, e); }
    }
  }

  lemma PrimStepPrims(g: seq<Type>, m0: seq<nat>, m: seq<nat>, tbl0: multiset<Entry>, tbl: multiset<Entry>,
                      start: nat, id: nat, target: nat)
    requires |m0| == |m| == |g| <= MAX_NR_TYPES && PrimWrites(g, m0, m, id, target)
    requires PrimPart(g, m0, tbl0, start, id)
    requires tbl == if target == id then tbl0 + multiset{Entry(HashOf(g[id]), id)} else tbl0
    requires target == id ==> forall i :: 0 <= i < id && Listed(g, tbl0, i) && m[i] == i ==> Apart(g[i], g[id])
    ensures PrimPart(g, m, tbl, start, id + 1)
  {
    hide HashOf;
    assert PrimsMapped(g, m, id + 1);
    assert PrimsListed(g, m, tbl, id + 1);
    assert PrimsDistinct(g, m, start, id + 1);
  }

  lemma PrimStepRest(g: seq<Type>, m0: seq<nat>, m: seq<nat>, tbl0: multiset<Entry>, tbl: multiset<Entry>,
                     start: nat, id: nat, target: nat)
    requires |m0| == |m| == |g| <= MAX_NR_TYPES && PrimWrites(g, m0, m, id, target)
    requires CompositePart(g, m0, tbl0, start, start) && FixedPart(g, m0, start) && tbl0 <= tbl && start <= id
    ensures CompositePart(g, m, tbl, start, start) && FixedPart(g, m, start)
  {
    hide HashOf, CompositePart, FixedPart;
    assert forall i :: 0 <= i < |g| && !IsPrim(g[i]) ==> m[i] == m0[i];
    SameComposites(g, m0, m, tbl0, tbl, start, start);
    SameFixed(g, m0, m, start);
  }

  /** A new link that leaves the fixed part alone. */
  predicate LeavesFixed(g: seq<Type>, m0: seq<nat>, m: seq<nat>, start: nat, i: nat)
    requires |m0| == |m| == |g| && i < |g|
  {
    m[i] == m0[i] || (IsMapped(m, i) && (IsPrim(g[i]) || IsComposite(g[i])) && (i < start ==> IsForward(g[i])))
  }

  lemma SameFixed(g: seq<Type>, m0: seq<nat>, m: seq<nat>, start: nat)
    requires |m0| == |m| == |g| && FixedPart(g, m0, start)
    requires forall i :: 0 <= i < |g| ==> LeavesFixed(g, m0, m, start, i)
    ensures FixedPart(g, m, start)
  {
    assert PinnedFixed(g, m) by {
      forall i | 0 <= i < |g| && (g[i].kind == Void || IsPinned(g[i])) ensures m[i] == i {
        assert LeavesFixed(g, m0, m, start, i);
      }
    }
    forall i | 0 <= i < |g| && i < start ensures m[i] <= MAX_NR_TYPES && (!IsForward(g[i]) ==> m[i] == i) {
      assert LeavesFixed(g, m0, m, start, i);
    }
    forall i | start <= i < |g| && IsRef(g[i]) ensures m[i] == UNPROCESSED_ID {
      assert LeavesFixed(g, m0, m, start, i);
    }
  }

  /** The composite part only depends on the links of composites. */
  lemma SameComposites(g: seq<Type>, m0: seq<nat>, m: seq<nat>, tbl0: multiset<Entry>, tbl: multiset<Entry>,
                       start: nat, p: nat)
    requires |m0| == |m| == |g| && CompositePart(g, m0, tbl0, start, p) && tbl0 <= tbl && p <= start
    requires forall i :: 0 <= i < |g| && IsComposite(g[i]) ==> m[i] == m0[i]
    ensures CompositePart(g, m, tbl, start, p)
  {
    hide HashOf, ComparedUnequal;
    assert CompositesListed(g, m, tbl, p) by {
      forall i | 0 <= i < p && i < |g| && IsComposite(g[i]) && m[i] == i ensures Listed(g, tbl, i) {
        assert Listed(g, tbl0, i);
      }
    }
  }

  lemma PrimSkip(g: seq<Type>, m: seq<nat>, tbl: multiset<Entry>, start: nat, id: nat)
    requires |m| == |g| && id < |g| && !IsPrim(g[id]) && Stage(g, m, tbl, start, id, start)
    ensures Stage(g, m, tbl, start, id + 1, start)
  {
    hide CompositePart, FixedPart, TableSound, BaseRefsListed, HashOf;
  }

  lemma PrimStep(g: seq<Type>, m0: seq<nat>, m: seq<nat>, tbl0: multiset<Entry>, tbl: multiset<Entry>,
                 start: nat, id: nat, target: nat)
    requires |m0| == |m| == |g| <= MAX_NR_TYPES && PrimWrites(g, m0, m, id, target)
    requires Stage(g, m0, tbl0, start, id, start) && start <= id
    requires tbl == if target == id then tbl0 + multiset{Entry(HashOf(g[id]), id)} else tbl0
    requires target == id ==> forall i :: 0 <= i < id && Listed(g, tbl0, i) && m[i] == i ==> Apart(g[i], g[id])
    ensures Stage(g, m, tbl, start, id + 1, start)
  {
    hide HashOf, PrimPart, CompositePart, FixedPart, TableSound, BaseRefsListed, PrimWrites;
    StageTable(g, m0, tbl0, start, id, start);
    PrimStepTable(g, m0, m, tbl0, tbl, id, target);
    PrimStepPrims(g, m0, m, tbl0, tbl, start, id, target);
    PrimStepRest(g, m0, m, tbl0, tbl, start, id, target);
    BaseRefsKept(g, tbl0, tbl, start);
  }

  // ----- Preparing the base -----------------------------------------------------------------------

  /** The state while the base is being entered: base types below p are representatives and listed. */
  ghost predicate BaseStage(g: seq<Type>, m: seq<nat>, tbl: multiset<Entry>, p: nat)
    requires |m| == |g|
  {
    && TableSound(g, m, tbl)
    && (forall e :: e in tbl ==> e.value < p)
    && (forall i :: 0 <= i < |g| && i < p ==> m[i] == i)
    && (forall i :: 1 <= i < |g| && i < p && !IsPinned(g[i]) ==> Listed(g, tbl, i))
    && (forall i :: p <= i < |g| ==> m[i] == if IsPinned(g[i]) then i else UNPROCESSED_ID)
  }

  lemma TableGrows(g: seq<Type>, m: seq<nat>, m': seq<nat>, tbl: multiset<Entry>, h: int, id: nat)
    requires |m| == |m'| == |g| && id < |g| && h == HashOf(g[id]) && TableSound(g, m, tbl)
    requires m'[id] == id && forall i :: 0 <= i < |g| && m[i] == i ==> m'[i] == i
    ensures TableSound(g, m', tbl) && TableSound(g, m', tbl + multiset{Entry(h, id)})
  {
    forall e | e in tbl + multiset{Entry(h, id)} ensures EntrySound(g, m', e) {
      if e in tbl { assert EntrySound(g, m, e); } else { assert e == Entry(h, id); }
    }
  }

  lemma BaseStep(g: seq<Type>, m: seq<nat>, tbl0: multiset<Entry>, tbl: multiset<Entry>, id: nat)
    requires |m| == |g| <= MAX_NR_TYPES && 1 <= id < |g| && BaseStage(g, m, tbl0, id)
    requires tbl == if IsPinned(g[id]) then tbl0 else tbl0 + multiset{Entry(HashOf(g[id]), id)}
    ensures BaseStage(g, m[id := id], tbl, id + 1)
  {
    var m' := m[id := id];
    TableGrows(g, m, m', tbl0, HashOf(g[id]), id);
    hide HashOf;
    assert TableSound(g, m', tbl);
    hide TableSound;
    assert forall e :: e in tbl ==> e.value < id + 1;
    forall i | 1 <= i < id + 1 && !IsPinned(g[i]) ensures Listed(g, tbl, i) {
      if i < id { assert Listed(g, tbl0, i); }
    }
  }

  lemma BaseStageDone(g: seq<Type>, m: seq<nat>, tbl: multiset<Entry>, start: nat)
    requires |m| == |g| <= MAX_NR_TYPES && ValidGraph(g) && 1 <= start <= |g| && BaseStage(g, m, tbl, start)
    ensures Stage(g, m, tbl, start, start, start)
  {
    BasePrims(g, m, tbl, start);
    BaseComposites(g, m, tbl, start);
    BaseFixed(g, m, tbl, start);
    hide HashOf, ClosedRefs, WellFormed, NoMorphism, PrimPart, CompositePart, FixedPart, ValidGraph;
  }

  lemma BasePrims(g: seq<Type>, m: seq<nat>, tbl: multiset<Entry>, start: nat)
    requires |m| == |g| <= MAX_NR_TYPES && ValidGraph(g) && 1 <= start <= |g| && BaseStage(g, m, tbl, start)
    ensures PrimPart(g, m, tbl, start, start)
  {
    hide HashOf, ClosedRefs, WellFormed, NoMorphism;
    forall e | e in tbl ensures 0 <= e.value < |g| && (IsPrim(g[e.value]) ==> e.value < start) {
      assert EntrySound(g, m, e);
    }
  }

  lemma BaseComposites(g: seq<Type>, m: seq<nat>, tbl: multiset<Entry>, start: nat)
    requires |m| == |g| <= MAX_NR_TYPES && ValidGraph(g) && 1 <= start <= |g| && BaseStage(g, m, tbl, start)
    ensures CompositePart(g, m, tbl, start, start)
  {
    hide HashOf, ClosedRefs, WellFormed, NoMorphism;
  }

  lemma BaseFixed(g: seq<Type>, m: seq<nat>, tbl: multiset<Entry>, start: nat)
    requires |m| == |g| <= MAX_NR_TYPES && ValidGraph(g) && 1 <= start <= |g| && BaseStage(g, m, tbl, start)
    ensures FixedPart(g, m, start)
  {
    hide HashOf, ClosedRefs, WellFormed, NoMorphism;
  }

  // ----- Merging a hypothetical map ---------------------------------------------------------------

  /** From m0 to m only forward declarations and unmapped composites from p on were given a link. */
  ghost predicate MergedLinks(g: seq<Type>, m0: seq<nat>, m: seq<nat>, p: nat)
    requires |m0| == |m| == |g|
  {
    forall i :: 0 <= i < |g| ==> m[i] == m0[i] || NewlyMerged(g, m0, m, p, i)
  }

  predicate NewlyMerged(g: seq<Type>, m0: seq<nat>, m: seq<nat>, p: nat, i: nat)
    requires |m0| == |m| == |g| && i < |g|
  {
    && IsMapped(m, i) && m[i] != i
    && (g[i].kind == Fwd || (IsComposite(g[i]) && p <= i && !IsMapped(m0, i)))
  }

  lemma MergedRefl(g: seq<Type>, m: seq<nat>, p: nat)
    requires |m| == |g|
    ensures MergedLinks(g, m, m, p)
  {
  }

  lemma MergedTrans(g: seq<Type>, m0: seq<nat>, m1: seq<nat>, m2: seq<nat>, p: nat)
    requires |m0| == |m1| == |m2| == |g| && MergedLinks(g, m0, m1, p) && MergedLinks(g, m1, m2, p)
    ensures MergedLinks(g, m0, m2, p)
  {
    forall i | 0 <= i < |g| ensures m2[i] == m0[i] || NewlyMerged(g, m0, m2, p, i) {
      assert m1[i] == m0[i] || NewlyMerged(g, m0, m1, p, i);
      assert m2[i] == m1[i] || NewlyMerged(g, m1, m2, p, i);
    }
  }

  /** What merging needs to know about the composites: those below p are mapped, those from p on are not
      representatives. */
  ghost predicate MergeReady(g: seq<Type>, m: seq<nat>, p: nat)
    requires |m| == |g|
  {
    PrimsMapped(g, m, |g|) && CompositesMapped(g, m, p) && CompositesOpen(g, m, p)
  }

  lemma MergeKeepsReady(g: seq<Type>, m0: seq<nat>, m: seq<nat>, p: nat)
    requires |m0| == |m| == |g| && MergedLinks(g, m0, m, p) && MergeReady(g, m0, p)
    ensures MergeReady(g, m, p)
  {
    assert PrimsMapped(g, m, |g|) by {
      forall i | 0 <= i < |g| && IsPrim(g[i]) ensures IsMapped(m, i) {
        assert m[i] == m0[i] || NewlyMerged(g, m0, m, p, i);
      }
    }
    assert CompositesMapped(g, m, p);
    assert CompositesOpen(g, m, p);
  }

  /** The links that merging a pair may write go down the ranking. */
  lemma MergeTargets(g: seq<Type>, m: seq<nat>, p: nat, t: nat, b: nat)
    requires WellLinked(g, m) && t < |g| && b < |g| && MergeReady(g, m, p) && PairKinds(g[t], g[b])
    ensures var tId, cId := Root(g, m, t), Root(g, m, b);
            && (g[tId].kind != Fwd && g[cId].kind == Fwd ==>
                  !IsRef(g[cId]) && tId != cId && LinkKinds(g[cId], g[tId]) && Rank(g, tId) < Rank(g, cId))
            && (g[tId].kind == Fwd && g[cId].kind != Fwd ==>
                  !IsRef(g[tId]) && tId != cId && LinkKinds(g[tId], g[cId]) && Rank(g, cId) < Rank(g, tId))
            && (IsComposite(g[tId]) && g[cId].kind != Fwd && IsMapped(m, cId) && !IsMapped(m, tId) ==>
                  p <= tId && tId != cId && LinkKinds(g[tId], g[cId]) && Rank(g, cId) < Rank(g, tId))
  {
    RootKinds(g, m, t);
    RootKinds(g, m, b);
  }

  /** Whether merging the pair of t and b joins their chains: a definition takes over a declaration, and a
      mapped type an unmapped composite.  When the base would have to change only the first is done. */
  ghost predicate Merges(g: seq<Type>, m: seq<nat>, t: nat, b: nat, adjust: bool)
    requires WellLinked(g, m) && t < |g| && b < |g|
  {
    var x, y := Root(g, m, t), Root(g, m, b);
    || (g[x].kind != Fwd && g[y].kind == Fwd)
    || (!adjust && g[x].kind == Fwd && g[y].kind != Fwd)
    || (!adjust && IsComposite(g[x]) && g[y].kind != Fwd && IsMapped(m, y) && !IsMapped(m, x))
  }

  /** The declaration of a pair with a composite is resolved, on the side of the base even if nothing else is. */
  ghost predicate PairResolved(g: seq<Type>, m: seq<nat>, t: nat, b: nat, adjust: bool)
    requires WellLinked(g, m) && t < |g| && b < |g|
  {
    && (IsComposite(g[t]) ==> g[Root(g, m, b)].kind != Fwd)
    && (IsComposite(g[b]) && !adjust ==> g[Root(g, m, t)].kind != Fwd)
  }

  lemma CompositeRoot(g: seq<Type>, m: seq<nat>, i: nat)
    requires WellLinked(g, m) && i < |g|
    ensures IsComposite(g[i]) ==> g[Root(g, m, i)].kind != Fwd
    ensures Root(g, m, Root(g, m, i)) == Root(g, m, i)
  {
    RootKinds(g, m, i);
  }

  /** Merging a pair resolves the declaration in it and undoes no earlier resolution. */
  lemma MergedPair(g: seq<Type>, m: seq<nat>, m': seq<nat>, t: nat, b: nat, adjust: bool, x: nat, y: nat)
    requires WellLinked(g, m) && WellLinked(g, m') && t < |g| && b < |g| && Merges(g, m, t, b, adjust)
    requires (x == Root(g, m, t) && y == Root(g, m, b)) || (x == Root(g, m, b) && y == Root(g, m, t))
    requires x != y && g[y].kind != Fwd && m' == m[x := y]
    ensures Root(g, m', t) == Root(g, m', b) && StaysResolved(g, m, m') && PairResolved(g, m', t, b, adjust)
  {
    CompositeRoot(g, m, t);
    CompositeRoot(g, m, b);
    hide WellLinked, StaysResolved;
    RootAfterLink(g, m, x, y, t);
    RootAfterLink(g, m, x, y, b);
    LinkStaysResolved(g, m, x, y);
  }

  lemma UnmergedPair(g: seq<Type>, m: seq<nat>, t: nat, b: nat, adjust: bool)
    requires WellLinked(g, m) && t < |g| && b < |g| && !Merges(g, m, t, b, adjust)
    ensures StaysResolved(g, m, m) && PairResolved(g, m, t, b, adjust)
  {
    CompositeRoot(g, m, t);
    CompositeRoot(g, m, b);
  }

  /** All pairs of the first n listed ids are resolved. */
  ghost predicate PairsResolved(g: seq<Type>, m: seq<nat>, hy: seq<nat>, list: seq<nat>, n: nat, adjust: bool)
    requires WellLinked(g, m) && |hy| == |g|
  {
    forall i :: 0 <= i < n && i < |list| && list[i] < |g| && hy[list[i]] < |g| ==> PairResolved(g, m, hy[list[i]], list[i], adjust)
  }

  lemma NonePaired(g: seq<Type>, m: seq<nat>, hy: seq<nat>, list: seq<nat>, adjust: bool)
    requires WellLinked(g, m) && |hy| == |g|
    ensures PairsResolved(g, m, hy, list, 0, adjust)
  {
  }

  lemma EveryPair(g: seq<Type>, m: seq<nat>, hy: seq<nat>, list: seq<nat>, adjust: bool)
    requires WellLinked(g, m) && HypotInRange(g, hy) && ListsHypot(hy, list) && PairsResolved(g, m, hy, list, |list|, adjust)
    ensures forall b :: 0 <= b < |g| && InHypot(hy, b) ==> PairResolved(g, m, hy[b], b, adjust)
  {
    hide PairResolved, WellLinked;
    forall b | 0 <= b < |g| && InHypot(hy, b) ensures PairResolved(g, m, hy[b], b, adjust) {
      var i :| 0 <= i < |list| && list[i] == b;
      assert hy[list[i]] < |g|;
    }
  }

  lemma PairsResolvedMore(g: seq<Type>, m: seq<nat>, m': seq<nat>, hy: seq<nat>, list: seq<nat>, n: nat, adjust: bool)
    requires WellLinked(g, m) && WellLinked(g, m') && |hy| == |g| && n < |list| && list[n] < |g| && hy[list[n]] < |g|
    requires PairsResolved(g, m, hy, list, n, adjust) && StaysResolved(g, m, m') && PairResolved(g, m', hy[list[n]], list[n], adjust)
    ensures PairsResolved(g, m', hy, list, n + 1, adjust)
  {
    assert |m| == |m'| == |g|;
    hide WellLinked, Root;
    forall i | 0 <= i < n && list[i] < |g| && hy[list[i]] < |g| ensures PairResolved(g, m', hy[list[i]], list[i], adjust) {
      assert PairResolved(g, m, hy[list[i]], list[i], adjust);
    }
  }

  lemma StageReady(g: seq<Type>, m: seq<nat>, tbl: multiset<Entry>, start: nat, p: nat)
    requires |m| == |g| && Stage(g, m, tbl, start, |g|, p)
    ensures MergeReady(g, m, p)
  {
  }

  /** Representatives other than forward declarations stay representatives, and no new ones appear. */
  lemma MergedRepresentatives(g: seq<Type>, m0: seq<nat>, m: seq<nat>, p: nat, i: nat)
    requires |m0| == |m| == |g| <= MAX_NR_TYPES && MergedLinks(g, m0, m, p) && i < |g|
    ensures m[i] == i ==> m0[i] == i
    ensures m0[i] == i && g[i].kind != Fwd ==> m[i] == i
  {
    assert m[i] == m0[i] || NewlyMerged(g, m0, m, p, i);
  }

  lemma MergeKeepsTable(g: seq<Type>, m0: seq<nat>, m: seq<nat>, tbl: multiset<Entry>, p: nat)
    requires |m0| == |m| == |g| <= MAX_NR_TYPES && MergedLinks(g, m0, m, p) && TableSound(g, m0, tbl)
    ensures TableSound(g, m, tbl)
  {
    hide HashOf, MergedLinks;
    forall e | e in tbl ensures EntrySound(g, m, e) {
      assert EntrySound(g, m0, e);
      MergedRepresentatives(g, m0, m, p, e.value);
    }
  }

  lemma MergeKeepsPrims(g: seq<Type>, m0: seq<nat>, m: seq<nat>, tbl: multiset<Entry>, start: nat, p: nat)
    requires |m0| == |m| == |g| <= MAX_NR_TYPES && MergedLinks(g, m0, m, p)
    requires PrimPart(g, m0, tbl, start, |g|) && MergeReady(g, m0, p)
    ensures PrimPart(g, m, tbl, start, |g|)
  {
    hide HashOf, MergedLinks;
    MergeKeepsReady(g, m0, m, p);
    forall i | 0 <= i < |g| && m[i] == i ensures m0[i] == i { MergedRepresentatives(g, m0, m, p, i); }
  }

  lemma MergeKeepsComposites(g: seq<Type>, m0: seq<nat>, m: seq<nat>, tbl: multiset<Entry>, start: nat, p: nat)
    requires |m0| == |m| == |g| <= MAX_NR_TYPES && MergedLinks(g, m0, m, p)
    requires CompositePart(g, m0, tbl, start, p) && MergeReady(g, m0, p)
    ensures CompositePart(g, m, tbl, start, p)
  {
    hide HashOf, MergedLinks;
    MergeKeepsReady(g, m0, m, p);
    forall i | 0 <= i < |g| && m[i] == i ensures m0[i] == i { MergedRepresentatives(g, m0, m, p, i); }
    if BaseDefined(g, start) { DistinctStays(g, m0, m, start, p); }
    hide CompositesDistinct;
  }

  lemma MergeKeepsFixed(g: seq<Type>, m0: seq<nat>, m: seq<nat>, start: nat, p: nat)
    requires |m0| == |m| == |g| <= MAX_NR_TYPES && MergedLinks(g, m0, m, p) && FixedPart(g, m0, start) && start <= p
    ensures FixedPart(g, m, start)
  {
    hide FixedPart;
    forall i | 0 <= i < |g| ensures LeavesFixed(g, m0, m, start, i) {
      assert m[i] == m0[i] || NewlyMerged(g, m0, m, p, i);
    }
    SameFixed(g, m0, m, start);
  }

  lemma MergeKeepsStage(g: seq<Type>, m0: seq<nat>, m: seq<nat>, tbl: multiset<Entry>, start: nat, p: nat)
    requires |m0| == |m| == |g| <= MAX_NR_TYPES && MergedLinks(g, m0, m, p) && start <= p
    requires Stage(g, m0, tbl, start, |g|, p)
    ensures Stage(g, m, tbl, start, |g|, p)
  {
    StageReady(g, m0, tbl, start, p);
    hide PrimPart, CompositePart, FixedPart, TableSound, BaseRefsListed, MergedLinks;
    MergeKeepsTable(g, m0, m, tbl, p);
    MergeKeepsPrims(g, m0, m, tbl, start, p);
    MergeKeepsComposites(g, m0, m, tbl, start, p);
    MergeKeepsFixed(g, m0, m, start, p);
  }

  // ----- One step of the composite pass -----------------------------------------------------------

  lemma CompositeSkip(g: seq<Type>, m: seq<nat>, tbl: multiset<Entry>, start: nat, id: nat)
    requires |m| == |g| && id < |g| && (!IsComposite(g[id]) || IsMapped(m, id))
    requires Stage(g, m, tbl, start, |g|, id)
    ensures Stage(g, m, tbl, start, |g|, id + 1)
  {
    hide PrimPart, FixedPart, TableSound, BaseRefsListed, HashOf, NoMorphism;
  }

  lemma CompositeStepTable(g: seq<Type>, m: seq<nat>, tbl: multiset<Entry>, id: nat, target: nat)
    requires |m| == |g| <= MAX_NR_TYPES && id < |g| && IsComposite(g[id]) && m[id] != id && target < |g|
    requires TableSound(g, m, tbl)
    ensures TableSound(g, m[id := target], tbl)
    ensures target == id ==> TableSound(g, m[id := target], tbl + multiset{Entry(HashOf(g[id]), id)})
  {
    hide HashOf;
    forall e | e in tbl ensures EntrySound(g, m[id := target], e) { assert EntrySound(g, m, e); }
    if target == id { TableGrows(g, m, m[id := target], tbl, HashOf(g[id]), id); }
  }

  lemma DistinctStep(g: seq<Type>, m: seq<nat>, start: nat, id: nat, target: nat)
    requires |m| == |g| && id < |g| && IsComposite(g[id]) && target < |g| && CompositesDistinct(g, m, start, id)
    requires target == id ==> WellLinked(g, m) && UnmatchedBelow(g, m, id)
    ensures CompositesDistinct(g, m[id := target], start, id + 1)
  {
    hide NoMorphism, ComparedUnequal, WellLinked, Resolution;
    var m' := m[id := target];
    forall i, j | 0 <= i < j < id + 1 && start <= j && BothRepresent(g, m', i, j) ensures ComparedUnequal(g, m', i, j) {
      if j < id {
        assert BothRepresent(g, m, i, j);
        ComparedStays(g, m, m', i, j);
      } else {
        NowCompared(g, m, m', i, id);
      }
    }
  }

  lemma NowCompared(g: seq<Type>, m: seq<nat>, m': seq<nat>, i: nat, j: nat)
    requires |m'| == |g| && WellLinked(g, m) && ResolvesLess(g, m, m') && NoMorphism(g, Resolution(g, m), i, j)
    ensures ComparedUnequal(g, m', i, j)
  {
    hide NoMorphism, WellLinked, Resolution;
  }

  lemma CompositeStepPart(g: seq<Type>, m: seq<nat>, tbl0: multiset<Entry>, tbl: multiset<Entry>,
                          start: nat, id: nat, target: nat)
    requires |m| == |g| <= MAX_NR_TYPES && id < |g| && IsComposite(g[id]) && target < |g|
    requires CompositePart(g, m, tbl0, start, id) && tbl0 <= tbl
    requires target == id ==> Listed(g, tbl, id)
    requires BaseDefined(g, start) && target == id ==> WellLinked(g, m) && UnmatchedBelow(g, m, id)
    ensures CompositePart(g, m[id := target], tbl, start, id + 1)
  {
    hide HashOf, ComparedUnequal, CompositesDistinct;
    var m' := m[id := target];
    if BaseDefined(g, start) { DistinctStep(g, m, start, id, target); }
    assert CompositesListed(g, m', tbl, id + 1) by {
      forall i | 0 <= i < id + 1 && IsComposite(g[i]) && m'[i] == i ensures Listed(g, tbl, i) {
        if i < id { assert Listed(g, tbl0, i); }
      }
    }
  }

  lemma CompositeStep(g: seq<Type>, m: seq<nat>, tbl0: multiset<Entry>, tbl: multiset<Entry>,
                      start: nat, id: nat, target: nat)
    requires |m| == |g| <= MAX_NR_TYPES && start <= id < |g| && IsComposite(g[id]) && target < |g|
    requires Stage(g, m, tbl0, start, |g|, id)
    requires tbl == if target == id then tbl0 + multiset{Entry(HashOf(g[id]), id)} else tbl0
    requires BaseDefined(g, start) && target == id ==> WellLinked(g, m) && UnmatchedBelow(g, m, id)
    ensures Stage(g, m[id := target], tbl, start, |g|, id + 1)
  {
    hide HashOf, NoMorphism;
    CompositeStepTable(g, m, tbl0, id, target);
    assert TableSound(g, m[id := target], tbl);
    CompositeStepPart(g, m, tbl0, tbl, start, id, target);
    hide CompositePart, TableSound, PrimPart, FixedPart, BaseRefsListed;
    CompositeStepRest(g, m, tbl0, tbl, start, id, target);
    BaseRefsKept(g, tbl0, tbl, start);
  }

  lemma CompositeStepRest(g: seq<Type>, m: seq<nat>, tbl0: multiset<Entry>, tbl: multiset<Entry>,
                          start: nat, id: nat, target: nat)
    requires |m| == |g| <= MAX_NR_TYPES && start <= id < |g| && IsComposite(g[id]) && target < |g|
    requires PrimPart(g, m, tbl0, start, |g|) && FixedPart(g, m, start) && tbl0 <= tbl
    requires forall e :: e in tbl ==> e in tbl0 || e.value == id
    ensures PrimPart(g, m[id := target], tbl, start, |g|) && FixedPart(g, m[id := target], start)
  {
    hide HashOf, PrimPart, FixedPart;
    var m' := m[id := target];
    assert forall i :: 0 <= i < |g| && !IsComposite(g[i]) ==> m'[i] == m[i];
    SameFixed(g, m, m', start);
    SamePrims(g, m, m', tbl0, tbl, start, id);
  }

  lemma SamePrims(g: seq<Type>, m0: seq<nat>, m: seq<nat>, tbl0: multiset<Entry>, tbl: multiset<Entry>, start: nat, id: nat)
    requires |m0| == |m| == |g| <= MAX_NR_TYPES && id < |g| && IsComposite(g[id])
    requires PrimPart(g, m0, tbl0, start, |g|) && tbl0 <= tbl
    requires forall e :: e in tbl ==> e in tbl0 || e.value == id
    requires forall i :: 0 <= i < |g| && !IsComposite(g[i]) ==> m[i] == m0[i]
    ensures PrimPart(g, m, tbl, start, |g|)
  {
    hide HashOf;
    assert TablePrimsBelow(g, tbl, |g|);
    assert PrimsListed(g, m, tbl, |g|) by {
      forall i | 0 <= i < |g| && IsPrim(g[i]) && m[i] == i ensures Listed(g, tbl, i) { assert Listed(g, tbl0, i); }
    }
    assert PrimsDistinct(g, m, start, |g|) by {
      forall i, j | 0 <= i < j < |g| && start <= j && IsPrim(g[j]) && m[i] == i && m[j] == j && IsPrim(g[i]) ensures Apart(g[i], g[j]) {
        assert m0[i] == i && m0[j] == j;
      }
    }
  }

  /** No representative composite below id has id as its morphic image. */
  ghost predicate UnmatchedBelow(g: seq<Type>, m: seq<nat>, id: nat)
    requires WellLinked(g, m) && id < |g|
  {
    forall i :: 0 <= i < id && IsComposite(g[i]) && m[i] == i ==> NoMorphism(g, Resolution(g, m), i, id)
  }

  lemma RepresentativeStruct(g: seq<Type>, m: seq<nat>, tbl: multiset<Entry>, h: int, id: nat, c: nat)
    requires |m| == |g| && id < |g| && c < |g| && IsComposite(g[id]) && ShallowEqualStruct(g[id], g[c])
    requires TableSound(g, m, tbl) && Entry(h, c) in tbl
    ensures IsComposite(g[c]) && m[c] == c
  {
    hide HashOf;
    assert EntrySound(g, m, Entry(h, c));
  }

  lemma LabelDecidesComposite(a: Type, b: Type)
    requires IsComposite(a) && WellFormed(a) && WellFormed(b)
    ensures ShallowEqualStruct(a, b) <==> Label(a) == Label(b)
    ensures Label(a) == Label(b) ==> HashOf(a) == HashOf(b)
  {
    HashIgnoresMembers(a);
    if IsComposite(b) { HashIgnoresMembers(b); }
    hide HashOf;
    assert Label(a) == Label(b) ==> a.kind == b.kind;
  }

  lemma HashIgnoresMembers(t: Type)
    requires IsComposite(t)
    ensures HashOf(t) == HashOf(Label(t))
  {
    hide Wrap64, HashCombine;
    assert HashCommon(t) == HashCommon(Label(t));
    hide HashCommon;
  }

  lemma MorphismLabels(g: seq<Type>, res: seq<nat>, i: nat, id: nat)
    requires i < |g| && id < |g| && IsComposite(g[i]) && IsComposite(g[id]) && Label(g[i]) != Label(g[id])
    ensures NoMorphism(g, res, i, id)
  {
    forall f: map<nat, nat> | Morphism(g, res, f) && i in f ensures f[i] != id {
      assert f[i] == id ==> MorphismAt(g, res, f, i);
    }
  }

  /** None of the first k candidates has id as its morphic image. */
  ghost predicate TriedInVain(g: seq<Type>, res: seq<nat>, ids: seq<nat>, k: nat, id: nat)
    requires id < |g|
  {
    forall j :: 0 <= j < k && j < |ids| && ids[j] < |g| && ShallowEqualStruct(g[id], g[ids[j]]) ==> NoMorphism(g, res, ids[j], id)
  }

  lemma NoneTried(g: seq<Type>, res: seq<nat>, ids: seq<nat>, id: nat)
    requires id < |g|
    ensures TriedInVain(g, res, ids, 0, id)
  {
  }

  /** When every candidate has been tried in vain, no representative composite matches id. */
  lemma AllTried(g: seq<Type>, m: seq<nat>, tbl: multiset<Entry>, start: nat, id: nat, ids: seq<nat>)
    requires ValidGraph(g) && WellLinked(g, m) && id < |g| && IsComposite(g[id])
    requires Stage(g, m, tbl, start, |g|, id)
    requires forall k :: 0 <= k < |ids| ==> ids[k] < |g|
    requires forall i: nat :: i in ids <==> Entry(HashOf(g[id]), i) in tbl
    requires TriedInVain(g, Resolution(g, m), ids, |ids|, id)
    ensures UnmatchedBelow(g, m, id)
  {
    var res := Resolution(g, m);
    hide Resolution, NoMorphism, WellLinked, HashOf, Stage, ShallowEqualStruct, ClosedRefs;
    NoneMatches(g, m, tbl, start, id, ids, res);
  }

  lemma NoneMatches(g: seq<Type>, m: seq<nat>, tbl: multiset<Entry>, start: nat, id: nat, ids: seq<nat>, res: seq<nat>)
    requires ValidGraph(g) && |m| == |g| && id < |g| && IsComposite(g[id])
    requires Stage(g, m, tbl, start, |g|, id)
    requires forall k :: 0 <= k < |ids| ==> ids[k] < |g|
    requires forall i: nat :: i in ids <==> Entry(HashOf(g[id]), i) in tbl
    requires TriedInVain(g, res, ids, |ids|, id)
    ensures forall i :: 0 <= i < id && IsComposite(g[i]) && m[i] == i ==> NoMorphism(g, res, i, id)
  {
    forall i | 0 <= i < id && IsComposite(g[i]) && m[i] == i ensures NoMorphism(g, res, i, id) {
      LabelDecidesComposite(g[id], g[i]);
      hide HashOf, NoMorphism, ShallowEqualStruct, PrimPart, FixedPart, TableSound, ClosedRefs, CompositesDistinct;
      if Label(g[i]) == Label(g[id]) {
        assert Listed(g, tbl, i);
        assert i in ids;
      } else {
        MorphismLabels(g, res, i, id);
      }
    }
  }

  /** Representative composites lie below the one being processed. */
  lemma StageBelow(g: seq<Type>, m: seq<nat>, tbl: multiset<Entry>, start: nat, id: nat, newId: nat)
    requires |m| == |g| && Stage(g, m, tbl, start, |g|, id) && id < |g| && newId < |g| && IsComposite(g[id])
    requires newId == id || (IsComposite(g[newId]) && m[newId] == newId)
    ensures newId == id || (LinkKinds(g[id], g[newId]) && Rank(g, newId) < Rank(g, id))
  {
    assert newId < id || newId == id;
  }

  lemma StageOpen(g: seq<Type>, m: seq<nat>, tbl: multiset<Entry>, start: nat, id: nat)
    requires |m| == |g| && Stage(g, m, tbl, start, |g|, id) && id < |g| && IsComposite(g[id])
    ensures m[id] != id
  {
  }

  lemma ResolvedMerged(g: seq<Type>, m0: seq<nat>, m: seq<nat>, start: nat)
    requires |m0| == |m| == |g| <= MAX_NR_TYPES && FwdsResolved(g, m0, m, start, |g|)
    ensures MergedLinks(g, m0, m, |g|)
  {
    forall i | 0 <= i < |g| ensures m[i] == m0[i] || NewlyMerged(g, m0, m, |g|, i) {
      assert ResolvedTo(g, m0, i, m[i]) || m[i] == m0[i];
    }
  }

  lemma FreshBase(g: seq<Type>, m: seq<nat>, tbl: multiset<Entry>)
    requires |m| == |g| && tbl == multiset{}
    requires forall i :: 0 <= i < |g| ==> m[i] == if i == 0 || IsPinned(g[i]) then i else UNPROCESSED_ID
    ensures BaseStage(g, m, tbl, 1)
  {
  }
}
