/** What the reference pass maintains.  g0 is the input graph, g the graph with references being rewritten
    to representatives in place. */
module RefStages {
  import opened Btf
  import opened Meaning
  import opened Links
  import opened HashMaps
  import opened Equiv
  import opened Names
  import opened Stages

  ghost predicate SameLabels(g0: seq<Type>, g: seq<Type>) {
    |g| == |g0| && forall i :: 0 <= i < |g| ==> Label(g[i]) == Label(g0[i]) && |g[i].refs| == |g0[i].refs|
  }

  /** Only reference types outside the base that have been visited may differ from the input. */
  ghost predicate Untouched(g0: seq<Type>, g: seq<Type>, m: seq<nat>, start: nat)
    requires |g0| == |g| == |m|
  {
    forall i :: 0 <= i < |g| && (!IsRef(g0[i]) || i < start || m[i] == UNPROCESSED_ID) ==> g[i] == g0[i]
  }

  ghost predicate OthersMapped(g0: seq<Type>, m: seq<nat>)
    requires |g0| == |m|
  {
    forall i :: 0 <= i < |m| && !IsRef(g0[i]) ==> IsMapped(m, i)
  }

  ghost predicate BaseKept(g0: seq<Type>, m: seq<nat>, start: nat)
    requires |g0| == |m|
  {
    forall i :: 0 <= i < start && i < |m| ==> m[i] <= MAX_NR_TYPES && (!IsForward(g0[i]) ==> m[i] == i)
  }

  /** What the earlier passes established about primitives and composites. */
  ghost predicate EarlierDistinct(g0: seq<Type>, m: seq<nat>, start: nat)
    requires |g0| == |m|
  {
    PrimsDistinct(g0, m, start, |g0|) && (BaseDefined(g0, start) ==> CompositesDistinct(g0, m, start, |g0|))
  }

  lemma SameEarlier(g0: seq<Type>, m: seq<nat>, start: nat, id: nat, v: nat)
    requires |g0| == |m| && id < |m| && IsRef(g0[id]) && EarlierDistinct(g0, m, start)
    ensures EarlierDistinct(g0, m[id := v], start)
  {
    hide ComparedUnequal;
    var m' := m[id := v];
    assert PrimsDistinct(g0, m', start, |g0|) by {
      forall i, j | 0 <= i < j < |g0| && start <= j && IsPrim(g0[j]) && m'[i] == i && m'[j] == j ensures Apart(g0[i], g0[j]) {
        if i != id { assert m[i] == i && m[j] == j; }
      }
    }
    if BaseDefined(g0, start) {
      forall i, j | 0 <= i < j < |g0| && start <= j && BothRepresent(g0, m', i, j) ensures ComparedUnequal(g0, m', i, j) {
        assert BothRepresent(g0, m, i, j);
        ComparedStays(g0, m, m', i, j);
      }
    }
  }

  ghost predicate RefTable(g0: seq<Type>, m: seq<nat>, tbl: multiset<Entry>)
    requires |g0| == |m|
  {
    forall e :: e in tbl ==> 0 <= e.value < |m| && (IsRef(g0[e.value]) ==> m[e.value] == e.value)
  }

  ghost predicate RefsListed(g0: seq<Type>, g: seq<Type>, m: seq<nat>, tbl: multiset<Entry>)
    requires |g0| == |g| == |m|
  {
    forall i :: 0 <= i < |m| && IsRef(g0[i]) && m[i] == i ==> Listed(g, tbl, i)
  }

  /** No two representative reference types are equal records, unless both belong to the base. */
  ghost predicate RefsDistinct(g0: seq<Type>, g: seq<Type>, m: seq<nat>, start: nat)
    requires |g0| == |g| == |m|
  {
    forall i, j :: 0 <= i < j < |m| && start <= j && IsRef(g0[i]) && IsRef(g0[j]) && m[i] == i && m[j] == j ==> g[i] != g[j]
  }

  /** The references of record i are representatives. */
  ghost predicate SettledTo(g: seq<Type>, m: seq<nat>, i: nat, k: nat)
    requires |g| == |m| && i < |g| && k <= |g[i].refs|
  {
    forall j :: 0 <= j < k ==> g[i].refs[j] < |m| && m[g[i].refs[j]] == g[i].refs[j]
  }

  ghost predicate Settled(g0: seq<Type>, g: seq<Type>, m: seq<nat>, start: nat)
    requires |g0| == |g| == |m|
  {
    forall i :: start <= i < |m| && IsRef(g0[i]) && IsMapped(m, i) ==> SettledTo(g, m, i, |g[i].refs|)
  }

  ghost predicate GraphPart(g0: seq<Type>, g: seq<Type>, m: seq<nat>, start: nat) {
    && |g0| == |g| == |m| && ClosedRefs(g0) && ClosedRefs(g)
    && SameLabels(g0, g) && Untouched(g0, g, m, start)
    && MeaningKept(g0, g)
  }

  ghost predicate LinkPart(g0: seq<Type>, m: seq<nat>, start: nat) {
    && |g0| == |m| && ClosedRefs(g0) && LinksOk(g0, m) && OthersMapped(g0, m) && BaseKept(g0, m, start)
    && LinkValues(m) && EarlierDistinct(g0, m, start)
  }

  /** A link is unvisited, in progress or mapped. */
  ghost predicate LinkValues(m: seq<nat>) {
    forall i :: 0 <= i < |m| ==> m[i] == UNPROCESSED_ID || m[i] == IN_PROGRESS_ID || m[i] <= MAX_NR_TYPES
  }

  ghost predicate ReprPart(g0: seq<Type>, g: seq<Type>, m: seq<nat>, tbl: multiset<Entry>, start: nat) {
    && |g0| == |g| == |m|
    && RefTable(g0, m, tbl) && RefsListed(g0, g, m, tbl) && RefsDistinct(g0, g, m, start)
    && Settled(g0, g, m, start)
  }

  ghost predicate RefInv(g0: seq<Type>, g: seq<Type>, m: seq<nat>, tbl: multiset<Entry>, start: nat) {
    && |g0| == |g| == |m| <= MAX_NR_TYPES
    && GraphPart(g0, g, m, start) && LinkPart(g0, m, start) && ReprPart(g0, g, m, tbl, start)
  }

  lemma RefStart(g: seq<Type>, m: seq<nat>, tbl: multiset<Entry>, start: nat)
    requires ValidGraph(g) && |m| == |g| && LinksOk(g, m) && start <= |g|
    requires Stage(g, m, tbl, start, |g|, |g|)
    ensures RefInv(g, g, m, tbl, start) && NoneInProgress(m)
  {
    hide HashOf, LinksOk, WellFormed, NoMorphism, Bisim, ClosedRefs;
    RefStartRepr(g, m, tbl, start);
    hide ReprPart, TableSound, BaseRefsListed;
    assert OthersMapped(g, m) && BaseKept(g, m, start) && LinkValues(m) && NoneInProgress(m);
    assert EarlierDistinct(g, m, start);
    RewrittenRefl(g);
  }

  lemma RefStartRepr(g: seq<Type>, m: seq<nat>, tbl: multiset<Entry>, start: nat)
    requires |m| == |g| <= MAX_NR_TYPES && start <= |g| && Stage(g, m, tbl, start, |g|, |g|)
    ensures ReprPart(g, g, m, tbl, start)
  {
    hide HashOf, PrimPart, CompositePart;
    assert RefTable(g, m, tbl) by {
      forall e | e in tbl ensures 0 <= e.value < |m| && (IsRef(g[e.value]) ==> m[e.value] == e.value) {
        assert EntrySound(g, m, e);
      }
    }
    hide TableSound;
    forall i | 0 <= i < |m| && IsRef(g[i]) && m[i] == i ensures i < start { }
    assert RefsListed(g, g, m, tbl) by {
      forall i | 0 <= i < |m| && IsRef(g[i]) && m[i] == i ensures Listed(g, tbl, i) { assert i < start; }
    }
  }

  lemma RewrittenRefl(g: seq<Type>)
    requires ClosedRefs(g)
    ensures MeaningKept(g, g)
  {
  }

  /** Every chain ends at a representative once its start is mapped. */
  lemma RootIsRepresentative(g0: seq<Type>, m: seq<nat>, i: nat)
    requires WellLinked(g0, m) && OthersMapped(g0, m) && i < |m| && IsMapped(m, i)
    ensures m[Root(g0, m, i)] == Root(g0, m, i)
  {
    assert LinkOk(g0, m, i);
    if IsRef(g0[i]) {
      assert Root(g0, m, m[i]) == m[i] || m[i] == i;
    } else {
      RootKinds(g0, m, i);
      assert !IsRef(g0[Root(g0, m, i)]);
    }
  }

  // ----- Steps of the pass ------------------------------------------------------------------------

  lemma OpenIsRef(g0: seq<Type>, m: seq<nat>, start: nat, id: nat)
    requires LinkPart(g0, m, start) && id < |m| && !IsMapped(m, id)
    ensures IsRef(g0[id]) && start <= id
  {
    hide LinksOk, ClosedRefs;
  }

  /** Links of visited or base types do not matter for the graph. */
  lemma SameGraphPart(g0: seq<Type>, g: seq<Type>, m: seq<nat>, m': seq<nat>, start: nat)
    requires GraphPart(g0, g, m, start) && |m'| == |m|
    requires forall i :: 0 <= i < |m| && m'[i] == UNPROCESSED_ID ==> m[i] == UNPROCESSED_ID
    ensures GraphPart(g0, g, m', start)
  {
    hide MeaningKept, NoForwards, ClosedRefs, SameLabels;
  }

  lemma MarkLinks(g0: seq<Type>, m: seq<nat>, start: nat, id: nat)
    requires LinkPart(g0, m, start) && id < |m| && m[id] == UNPROCESSED_ID
    ensures LinkPart(g0, m[id := IN_PROGRESS_ID], start)
  {
    MarkUnmapped(g0, m, id, IN_PROGRESS_ID);
    hide WellLinked, NoForwards, Bisim, ClosedRefs, EarlierDistinct;
    SameEarlier(g0, m, start, id, IN_PROGRESS_ID);
  }

  lemma MarkRepr(g0: seq<Type>, g: seq<Type>, m: seq<nat>, tbl: multiset<Entry>, start: nat, id: nat)
    requires ReprPart(g0, g, m, tbl, start) && id < |m| <= MAX_NR_TYPES && m[id] == UNPROCESSED_ID
    ensures ReprPart(g0, g, m[id := IN_PROGRESS_ID], tbl, start)
  {
    hide HashOf;
    var m' := m[id := IN_PROGRESS_ID];
    forall i | start <= i < |m'| && IsRef(g0[i]) && IsMapped(m', i) ensures SettledTo(g, m', i, |g[i].refs|) {
      assert SettledTo(g, m, i, |g[i].refs|);
    }
  }

  lemma MarkStep(g0: seq<Type>, g: seq<Type>, m: seq<nat>, tbl: multiset<Entry>, start: nat, id: nat)
    requires RefInv(g0, g, m, tbl, start) && id < |m| && m[id] == UNPROCESSED_ID
    ensures RefInv(g0, g, m[id := IN_PROGRESS_ID], tbl, start)
  {
    hide GraphPart, LinkPart, ReprPart;
    MarkLinks(g0, m, start, id);
    SameGraphPart(g0, g, m, m[id := IN_PROGRESS_ID], start);
    MarkRepr(g0, g, m, tbl, start, id);
  }

  /** Replaces reference k of record id. */
  function WithRef(g: seq<Type>, id: nat, k: nat, r: nat): seq<Type>
    requires id < |g| && k < |g[id].refs|
  {
    g[id := g[id].(refs := g[id].refs[k := r])]
  }

  lemma RewriteStep(g0: seq<Type>, g: seq<Type>, m: seq<nat>, tbl: multiset<Entry>, start: nat, id: nat, k: nat, r: nat)
    requires RefInv(g0, g, m, tbl, start) && id < |m| && m[id] == IN_PROGRESS_ID
    requires k < |g[id].refs| && r < |m|
    requires Bisim(g0, g0[id].refs[k], r)
    ensures RefInv(g0, WithRef(g, id, k, r), m, tbl, start)
  {
    hide HashOf, LinksOk, Bisim, NoForwards, MeaningKept;
    OpenIsRef(g0, m, start, id);
    var g' := WithRef(g, id, k, r);
    assert forall i :: 0 <= i < |g| && i != id ==> g'[i] == g[i];
    assert GraphPart(g0, g', m, start) by {
      hide ReprPart, LinkPart;
      assert ClosedRefs(g') && SameLabels(g0, g');
      RewriteMeaning(g0, g, id, k, r);
    }
    hide GraphPart, LinkPart;
    RewriteRepr(g0, g, m, tbl, start, id, k, r);
  }

  lemma RewriteRepr(g0: seq<Type>, g: seq<Type>, m: seq<nat>, tbl: multiset<Entry>, start: nat, id: nat, k: nat, r: nat)
    requires ReprPart(g0, g, m, tbl, start) && id < |m| <= MAX_NR_TYPES && m[id] == IN_PROGRESS_ID
    requires k < |g[id].refs|
    ensures ReprPart(g0, WithRef(g, id, k, r), m, tbl, start)
  {
    hide HashOf;
    var g' := WithRef(g, id, k, r);
    assert forall i :: 0 <= i < |g| && i != id ==> g'[i] == g[i];
    forall i | 0 <= i < |m| && IsRef(g0[i]) && m[i] == i ensures Listed(g', tbl, i) { assert Listed(g, tbl, i); }
    forall i | start <= i < |m| && IsRef(g0[i]) && IsMapped(m, i) ensures SettledTo(g', m, i, |g'[i].refs|) {
      assert SettledTo(g, m, i, |g[i].refs|);
    }
  }

  lemma RewriteMeaning(g0: seq<Type>, g: seq<Type>, id: nat, k: nat, r: nat)
    requires ClosedRefs(g0) && ClosedRefs(g) && |g0| == |g| && id < |g| && k < |g[id].refs| && r < |g|
    requires SameLabels(g0, g) && MeaningKept(g0, g) && Bisim(g0, g0[id].refs[k], r) && ClosedRefs(WithRef(g, id, k, r))
    ensures MeaningKept(g0, WithRef(g, id, k, r))
  {
    hide Bisim;
    var g' := WithRef(g, id, k, r);
    forall i | 0 <= i < |g'| ensures RewrittenFrom(g0, g', i) {
      assert RewrittenFrom(g0, g, i);
    }
  }

  /** Equal records of the rewritten graph mean the same in the input graph. */
  lemma EqualRewritten(g0: seq<Type>, g: seq<Type>, a: nat, b: nat)
    requires ClosedRefs(g0) && ClosedRefs(g) && |g0| == |g| && a < |g| && b < |g|
    requires MeaningKept(g0, g) && g[a] == g[b]
    ensures Bisim(g0, a, b)
  {
    EqualRecordsBisim(g, a, b);
    RewriteKeepsMeaning(g0, g, a);
    RewriteKeepsMeaning(g0, g, b);
  }

  lemma FinishLinks(g0: seq<Type>, g: seq<Type>, m: seq<nat>, start: nat, id: nat, newId: nat)
    requires GraphPart(g0, g, m, start) && LinkPart(g0, m, start)
    requires id < |m| <= MAX_NR_TYPES && newId < |m| && IsRef(g0[id]) && !IsMapped(m, id)
    requires newId == id || (m[newId] == newId && g[newId] == g[id])
    ensures LinkPart(g0, m[id := newId], start)
  {
    hide ClosedRefs, MeaningKept, Untouched, Bisim;
    assert Label(g0[id]) == Label(g0[newId]);
    SetRefLink(g0, m, id, newId);
    EqualRewritten(g0, g, id, newId);
    hide WellLinked, NoForwards, SameLabels, GraphPart, EarlierDistinct;
    SameEarlier(g0, m, start, id, newId);
  }

  lemma FinishStep(g0: seq<Type>, g: seq<Type>, m: seq<nat>, tbl0: multiset<Entry>, tbl: multiset<Entry>,
                   start: nat, id: nat, newId: nat)
    requires RefInv(g0, g, m, tbl0, start) && id < |m| && newId < |m| && m[id] == IN_PROGRESS_ID
    requires SettledTo(g, m, id, |g[id].refs|)
    requires newId == id || (m[newId] == newId && g[newId] == g[id])
    requires tbl == if newId == id then tbl0 + multiset{Entry(HashOf(g[id]), id)} else tbl0
    requires newId == id ==> forall i :: 0 <= i < |m| && Listed(g, tbl0, i) ==> g[i] != g[id]
    ensures RefInv(g0, g, m[id := newId], tbl, start)
  {
    hide GraphPart, LinkPart, HashOf, SettledTo, RefTable, RefsListed, RefsDistinct, Settled, Listed;
    OpenIsRef(g0, m, start, id);
    FinishLinks(g0, g, m, start, id, newId);
    SameGraphPart(g0, g, m, m[id := newId], start);
    FinishTable(g0, g, m, tbl0, tbl, start, id, newId);
    FinishSettled(g0, g, m, start, id, newId);
  }

  lemma FinishTable(g0: seq<Type>, g: seq<Type>, m: seq<nat>, tbl0: multiset<Entry>, tbl: multiset<Entry>,
                    start: nat, id: nat, newId: nat)
    requires |g0| == |g| == |m| <= MAX_NR_TYPES && id < |m| && newId < |m| && m[id] == IN_PROGRESS_ID && IsRef(g0[id])
    requires RefTable(g0, m, tbl0) && RefsListed(g0, g, m, tbl0) && RefsDistinct(g0, g, m, start)
    requires tbl == if newId == id then tbl0 + multiset{Entry(HashOf(g[id]), id)} else tbl0
    requires newId == id ==> forall i :: 0 <= i < |m| && Listed(g, tbl0, i) ==> g[i] != g[id]
    ensures RefTable(g0, m[id := newId], tbl) && RefsListed(g0, g, m[id := newId], tbl)
    ensures RefsDistinct(g0, g, m[id := newId], start)
  {
    hide HashOf;
    var m' := m[id := newId];
    assert RefTable(g0, m', tbl) by {
      forall e | e in tbl ensures 0 <= e.value < |m'| && (IsRef(g0[e.value]) ==> m'[e.value] == e.value) {
        if e in tbl0 { }
      }
    }
    assert RefsListed(g0, g, m', tbl) by {
      forall i | 0 <= i < |m'| && IsRef(g0[i]) && m'[i] == i ensures Listed(g, tbl, i) {
        if i != id { assert Listed(g, tbl0, i); }
      }
    }
    assert RefsDistinct(g0, g, m', start);
  }

  lemma FinishSettled(g0: seq<Type>, g: seq<Type>, m: seq<nat>, start: nat, id: nat, newId: nat)
    requires |g0| == |g| == |m| <= MAX_NR_TYPES && id < |m| && newId < |m| && m[id] == IN_PROGRESS_ID
    requires Settled(g0, g, m, start) && SettledTo(g, m, id, |g[id].refs|)
    ensures Settled(g0, g, m[id := newId], start)
  {
    var m' := m[id := newId];
    forall i | start <= i < |m'| && IsRef(g0[i]) && IsMapped(m', i) ensures SettledTo(g, m', i, |g[i].refs|) {
      assert SettledTo(g, m, i, |g[i].refs|);
    }
  }

  // ----- Frames -----------------------------------------------------------------------------------

  /** Between two calls only unvisited types change: they end up mapped. */
  ghost predicate RefFrame(g: seq<Type>, m: seq<nat>, g': seq<Type>, m': seq<nat>) {
    && |g| == |m| == |g'| == |m'|
    && forall i :: 0 <= i < |m| ==> FrameAt(g, m, g', m', i)
  }

  predicate FrameAt(g: seq<Type>, m: seq<nat>, g': seq<Type>, m': seq<nat>, i: nat)
    requires |g| == |m| == |g'| == |m'| && i < |m|
  {
    if m[i] == UNPROCESSED_ID then m'[i] == UNPROCESSED_ID || IsMapped(m', i)
    else m'[i] == m[i] && g'[i] == g[i]
  }

  /** The reference pass changes the links of reference types only. */
  lemma FrameKeepsOthers(g0: seq<Type>, g: seq<Type>, m: seq<nat>, tbl: multiset<Entry>, g': seq<Type>, m': seq<nat>, start: nat)
    requires RefInv(g0, g, m, tbl, start) && RefFrame(g, m, g', m') && NoneResolvable(g0, m, start)
    ensures |m'| == |g0| && NoneResolvable(g0, m', start)
  {
    forall i | 0 <= i < |g0| && (IsComposite(g0[i]) || g0[i].kind == Fwd) ensures m'[i] == m[i] {
      hide GraphPart, ReprPart, LinksOk, EarlierDistinct, ClosedRefs, NoneResolvable;
      assert FrameAt(g, m, g', m', i);
      assert IsMapped(m, i);
    }
    hide RefInv, RefFrame;
    NoneResolvableStays(g0, m, m', start);
  }

  lemma RefFrameTrans(g: seq<Type>, m: seq<nat>, g1: seq<Type>, m1: seq<nat>, g2: seq<Type>, m2: seq<nat>)
    requires RefFrame(g, m, g1, m1) && RefFrame(g1, m1, g2, m2)
    ensures RefFrame(g, m, g2, m2)
  {
    forall i | 0 <= i < |m| ensures FrameAt(g, m, g2, m2, i) {
      assert FrameAt(g, m, g1, m1, i) && FrameAt(g1, m1, g2, m2, i);
    }
  }

  ghost function OpenIds(m: seq<nat>): set<nat> {
    set i: nat | 0 <= i < |m| && m[i] == UNPROCESSED_ID
  }

  lemma FrameShrinks(g: seq<Type>, m: seq<nat>, g': seq<Type>, m': seq<nat>)
    requires RefFrame(g, m, g', m')
    ensures OpenIds(m') <= OpenIds(m)
  {
    forall i | i in OpenIds(m') ensures i in OpenIds(m) { assert FrameAt(g, m, g', m', i); }
  }

  /** What a candidate for record id can be. */
  lemma RefCandidates(g0: seq<Type>, g: seq<Type>, m: seq<nat>, tbl: multiset<Entry>, start: nat, id: nat)
    requires ValidGraph(g0) && RefInv(g0, g, m, tbl, start) && id < |m| && !IsMapped(m, id)
    ensures TableInRange(tbl, |g0|)
    ensures IsRef(g[id]) && forall i :: 0 <= i < |g| ==> WellFormed(g[i])
    ensures forall e :: e in tbl && 0 <= e.value < |m| && g[e.value] == g[id] ==> m[e.value] == e.value
  {
    hide HashOf, ClosedRefs, LinksOk, MeaningKept, NoForwards, Settled, RefsListed, RefsDistinct, Untouched;
    OpenIsRef(g0, m, start, id);
    forall i | 0 <= i < |g| ensures WellFormed(g[i]) && (IsRef(g[i]) <==> IsRef(g0[i])) {
      SameLabelWellFormed(g[i], g0[i]);
    }
  }

  lemma SameLabelWellFormed(a: Type, b: Type)
    requires Label(a) == Label(b) && |a.refs| == |b.refs| && WellFormed(b)
    ensures WellFormed(a) && (IsRef(a) <==> IsRef(b))
  {
    assert a == b.(refs := a.refs);
  }

  ghost predicate ReachesRoot(g0: seq<Type>, m: seq<nat>, i: nat, r: nat) {
    WellLinked(g0, m) && i < |m| && Root(g0, m, i) == r
  }

  lemma RefLinks(g0: seq<Type>, g: seq<Type>, m: seq<nat>, tbl: multiset<Entry>, start: nat)
    requires RefInv(g0, g, m, tbl, start)
    ensures ClosedRefs(g0) && WellLinked(g0, m) && OthersMapped(g0, m)
    ensures LinksSound(g0, m)
  {
    hide ClosedRefs, WellLinked, NoForwards, Bisim, GraphPart, ReprPart;
  }

  lemma OpenValues(g0: seq<Type>, g: seq<Type>, m: seq<nat>, tbl: multiset<Entry>, start: nat, id: nat)
    requires RefInv(g0, g, m, tbl, start) && id < |m| && !IsMapped(m, id) && m[id] != IN_PROGRESS_ID
    ensures m[id] == UNPROCESSED_ID
  {
  }

  lemma RefFrameRefl(g: seq<Type>, m: seq<nat>)
    requires |g| == |m|
    ensures RefFrame(g, m, g, m)
  {
  }

  /** Marking, rewriting and finishing id, seen as one step. */
  lemma FrameWhole(g0: seq<Type>, m0: seq<nat>, m1: seq<nat>, g: seq<Type>, m2: seq<nat>, m: seq<nat>, id: nat)
    requires |g0| == |m0| && id < |m0| && m0[id] == UNPROCESSED_ID && m1 == m0[id := IN_PROGRESS_ID]
    requires |g| == |m0| && RefFrame(g0[id := g[id]], m1, g, m2)
    requires |m| == |m2| && IsMapped(m, id) && m == m2[id := m[id]]
    ensures RefFrame(g0, m0, g, m)
  {
    forall i | 0 <= i < |m0| ensures FrameAt(g0, m0, g, m, i) {
      assert FrameAt(g0[id := g[id]], m1, g, m2, i);
    }
  }

  lemma FrameRewrite(g0: seq<Type>, m0: seq<nat>, g: seq<Type>, m: seq<nat>, id: nat, k: nat, r: nat)
    requires |g0| == |m0| && id < |m0| && |g| == |m0| && k < |g[id].refs|
    requires RefFrame(g0[id := g[id]], m0, g, m)
    ensures RefFrame(g0[id := WithRef(g, id, k, r)[id]], m0, WithRef(g, id, k, r), m)
  {
    var g' := WithRef(g, id, k, r);
    var before, after := g0[id := g[id]], g0[id := g'[id]];
    forall i | 0 <= i < |m0| ensures FrameAt(after, m0, g', m, i) {
      assert FrameAt(before, m0, g, m, i);
    }
  }

  lemma SettledFrame(g: seq<Type>, m: seq<nat>, g': seq<Type>, m': seq<nat>, id: nat, k: nat)
    requires RefFrame(g, m, g', m') && id < |m| <= MAX_NR_TYPES && m[id] == IN_PROGRESS_ID
    requires k <= |g[id].refs| && SettledTo(g, m, id, k)
    ensures g'[id] == g[id] && SettledTo(g', m', id, k)
  {
    assert FrameAt(g, m, g', m', id);
    forall j | 0 <= j < k ensures g'[id].refs[j] < |m'| && m'[g'[id].refs[j]] == g'[id].refs[j] {
      assert FrameAt(g, m, g', m', g[id].refs[j]);
    }
  }

  lemma SettledRewrite(g: seq<Type>, m: seq<nat>, id: nat, k: nat, r: nat)
    requires |g| == |m| && id < |m| && k < |g[id].refs| && r < |m| && m[r] == r && SettledTo(g, m, id, k)
    ensures SettledTo(WithRef(g, id, k, r), m, id, k + 1)
  {
  }

  lemma LinkedRoot(g0: seq<Type>, g: seq<Type>, m: seq<nat>, tbl: multiset<Entry>, start: nat, id: nat)
    requires RefInv(g0, g, m, tbl, start) && id < |m| && m[id] < |m| && m[m[id]] == m[id]
    ensures ReachesRoot(g0, m, id, m[id]) && ClosedRefs(g0) && Bisim(g0, id, m[id])
  {
    RefLinks(g0, g, m, tbl, start);
    hide RefInv, NoForwards, ClosedRefs, Bisim, OthersMapped;
    assert Root(g0, m, m[id]) == m[id];
  }

  lemma EveryTypeMapped(g0: seq<Type>, g: seq<Type>, m: seq<nat>, tbl: multiset<Entry>, start: nat)
    requires RefInv(g0, g, m, tbl, start)
    requires forall i :: start <= i < |m| ==> m[i] <= MAX_NR_TYPES
    ensures AllMapped(m)
  {
    hide GraphPart, ReprPart, LinksOk, EarlierDistinct, ClosedRefs;
    forall i | 0 <= i < |m| ensures IsMapped(m, i) { }
  }

  lemma RefParts(g0: seq<Type>, g: seq<Type>, m: seq<nat>, tbl: multiset<Entry>, start: nat)
    requires RefInv(g0, g, m, tbl, start)
    ensures GraphPart(g0, g, m, start) && LinkPart(g0, m, start) && ReprPart(g0, g, m, tbl, start)
    ensures WellLinked(g0, m) && ClosedRefs(g) && |g0| == |g| == |m| <= MAX_NR_TYPES
    ensures BaseDefined(g0, start) ==> CompositesDistinct(g0, m, start, |g0|)
  {
    hide WellLinked, ClosedRefs, ReprPart, CompositesDistinct, NoForwards, PrimsDistinct;
  }

  // ----- When the pass cannot run into a loop -----------------------------------------------------

  /** Every type in progress has at least height h. */
  ghost predicate InProgressFrom(m: seq<nat>, height: seq<nat>, h: nat) {
    |height| == |m| && forall j :: 0 <= j < |m| && m[j] == IN_PROGRESS_ID ==> height[j] >= h
  }

  ghost predicate NoneInProgress(m: seq<nat>) {
    forall j :: 0 <= j < |m| ==> m[j] != IN_PROGRESS_ID
  }

  lemma FrameNone(g: seq<Type>, m: seq<nat>, g': seq<Type>, m': seq<nat>)
    requires RefFrame(g, m, g', m') && NoneInProgress(m)
    ensures NoneInProgress(m')
  {
    forall j | 0 <= j < |m'| ensures m'[j] != IN_PROGRESS_ID { assert FrameAt(g, m, g', m', j); }
  }

  lemma InProgressIsRef(g0: seq<Type>, g: seq<Type>, m: seq<nat>, tbl: multiset<Entry>, start: nat, id: nat)
    requires RefInv(g0, g, m, tbl, start) && id < |m| && m[id] == IN_PROGRESS_ID
    ensures IsRef(g0[id])
  {
    OpenIsRef(g0, m, start, id);
  }

  lemma FrameInProgress(g: seq<Type>, m: seq<nat>, g': seq<Type>, m': seq<nat>, height: seq<nat>, h: nat)
    requires RefFrame(g, m, g', m') && InProgressFrom(m, height, h)
    ensures InProgressFrom(m', height, h)
  {
    forall j | 0 <= j < |m'| && m'[j] == IN_PROGRESS_ID ensures height[j] >= h { assert FrameAt(g, m, g', m', j); }
  }

  /** The condition under which visiting id cannot meet a type in progress. */
  ghost predicate Safe(g: seq<Type>, m: seq<nat>, height: seq<nat>, id: nat)
    requires id < |g| == |m|
  {
    IsRef(g[id]) ==> |height| == |m| && InProgressFrom(m, height, height[id] + 1)
  }

  lemma NoneSafe(g0: seq<Type>, m: seq<nat>, height: seq<nat>, id: nat)
    requires ClosedRefs(g0) && HeightOk(g0, height) && |m| == |g0| && id < |m| && NoneInProgress(m)
    ensures Safe(g0, m, height, id)
  {
  }

  lemma ChildSafe(g0: seq<Type>, m: seq<nat>, height: seq<nat>, id: nat, k: nat)
    requires ClosedRefs(g0) && HeightOk(g0, height) && |m| == |g0| && id < |m| && k < |g0[id].refs| && IsRef(g0[id])
    requires InProgressFrom(m, height, height[id])
    ensures Safe(g0, m, height, g0[id].refs[k])
  {
  }
}