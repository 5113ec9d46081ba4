/** Compaction and renumbering: representatives keep their order and get consecutive new ids. */
module Renumber {
  import opened Btf
  import opened Meaning
  import opened Links
  import opened HashMaps
  import opened Names
  import opened Stages
  import opened RefStages

  /** How many of the ids from start to i (exclusive) are representatives. */
  function CountReps(m: seq<nat>, start: nat, i: nat): nat
    requires i <= |m|
  {
    if i <= start then 0 else CountReps(m, start, i - 1) + (if m[i - 1] == i - 1 then 1 else 0)
  }

  function NewPlace(m: seq<nat>, start: nat, i: nat): nat
    requires i <= |m|
  {
    start + CountReps(m, start, i)
  }

  lemma {:induction false} CountMonotone(m: seq<nat>, start: nat, i: nat, j: nat)
    requires i <= j <= |m|
    ensures CountReps(m, start, i) <= CountReps(m, start, j)
    ensures start <= i < j && m[i] == i ==> CountReps(m, start, i) < CountReps(m, start, j)
    decreases j
  {
    if i < j { CountMonotone(m, start, i, j - 1); }
  }

  lemma {:induction false} CountBound(m: seq<nat>, start: nat, i: nat)
    requires i <= |m|
    ensures start <= i ==> NewPlace(m, start, i) <= i
  {
    if start < i { CountBound(m, start, i - 1); }
  }

  /** Every new id from start on is the place of some representative. */
  lemma {:induction false} PlacesDense(m: seq<nat>, start: nat, i: nat, j: nat) returns (r: nat)
    requires i <= |m| && start <= j < NewPlace(m, start, i)
    ensures start <= r < i && m[r] == r && NewPlace(m, start, r) == j
  {
    if m[i - 1] == i - 1 && NewPlace(m, start, i - 1) == j {
      r := i - 1;
    } else {
      r := PlacesDense(m, start, i - 1, j);
    }
  }

  /** Where id i ends up, as recorded by compaction: base ids stay, representatives move down. */
  ghost predicate PlacedAt(m: seq<nat>, start: nat, hy: seq<nat>, i: nat)
    requires |hy| == |m| && i < |m|
  {
    if i < start then hy[i] == i
    else if m[i] == i then hy[i] == NewPlace(m, start, i)
    else hy[i] == UNPROCESSED_ID
  }

  /** out holds the base followed by the representatives of g in their original order. */
  ghost predicate Compacted<T>(g: seq<T>, m: seq<nat>, start: nat, out: seq<T>, hy: seq<nat>) {
    && |g| == |m| == |hy| && start <= |g| && |out| == NewPlace(m, start, |m|)
    && (forall i :: 0 <= i < |m| ==> PlacedAt(m, start, hy, i))
    && (forall i :: 0 <= i < |m| && (i < start || m[i] == i) ==> hy[i] < |out| && out[hy[i]] == g[i])
  }

  /** The state while compaction runs in place: ids below p are done, records from p on are still intact. */
  ghost predicate Compacting<T>(g: seq<T>, m: seq<nat>, start: nat, cur: seq<T>, hy: seq<nat>, p: nat) {
    && |g| == |m| == |hy| == |cur| && start <= p <= |g| && NewPlace(m, start, p) <= p
    && (forall i :: 0 <= i < p ==> PlacedAt(m, start, hy, i))
    && (forall i :: p <= i < |m| ==> hy[i] == UNPROCESSED_ID && cur[i] == g[i])
    && (forall i :: 0 <= i < p && (i < start || m[i] == i) ==> hy[i] < NewPlace(m, start, p) && cur[hy[i]] == g[i])
  }

  lemma CompactSkip<T>(g: seq<T>, m: seq<nat>, start: nat, cur: seq<T>, hy: seq<nat>, p: nat)
    requires Compacting(g, m, start, cur, hy, p) && p < |m| && m[p] != p
    ensures Compacting(g, m, start, cur, hy, p + 1)
  {
    CountBound(m, start, p);
  }

  /** Moving record p down overwrites no record that is still to be read. */
  lemma CompactMove<T>(g: seq<T>, m: seq<nat>, start: nat, cur: seq<T>, hy: seq<nat>, p: nat)
    requires Compacting(g, m, start, cur, hy, p) && p < |m| && m[p] == p
    ensures NewPlace(m, start, p) <= p
    ensures Compacting(g, m, start, cur[NewPlace(m, start, p) := cur[p]], hy[p := NewPlace(m, start, p)], p + 1)
  {
    CountBound(m, start, p);
    var cur', hy' := cur[NewPlace(m, start, p) := cur[p]], hy[p := NewPlace(m, start, p)];
    forall i | 0 <= i < p + 1 ensures PlacedAt(m, start, hy', i) {
      if i < p { assert PlacedAt(m, start, hy, i); }
    }
    forall i | 0 <= i < p + 1 && (i < start || m[i] == i) ensures hy'[i] < NewPlace(m, start, p + 1) && cur'[hy'[i]] == g[i] {
      if i < p { assert hy[i] < NewPlace(m, start, p); }
    }
  }

  lemma CompactDone<T>(g: seq<T>, m: seq<nat>, start: nat, cur: seq<T>, hy: seq<nat>)
    requires Compacting(g, m, start, cur, hy, |m|)
    ensures NewPlace(m, start, |m|) <= |cur|
    ensures Compacted(g, m, start, cur[..NewPlace(m, start, |m|)], hy)
  {
    CountBound(m, start, |m|);
  }

  /** The old-to-new map is strictly increasing on what is kept and reaches every new id. */
  lemma PlacesIncrease<T>(g: seq<T>, m: seq<nat>, start: nat, out: seq<T>, hy: seq<nat>, i: nat, j: nat)
    requires Compacted(g, m, start, out, hy) && i < j < |m| && (i < start || m[i] == i) && (j < start || m[j] == j)
    ensures hy[i] < hy[j] < |out|
  {
    assert PlacedAt(m, start, hy, i) && PlacedAt(m, start, hy, j);
    CountMonotone(m, start, i, j);
  }

  lemma PlacesOnto<T>(g: seq<T>, m: seq<nat>, start: nat, out: seq<T>, hy: seq<nat>, j: nat) returns (i: nat)
    requires Compacted(g, m, start, out, hy) && j < |out|
    ensures i < |m| && (i < start || m[i] == i) && hy[i] == j && out[j] == g[i]
  {
    if j < start {
      i := j;
    } else {
      i := PlacesDense(m, start, |m|, j);
    }
    assert PlacedAt(m, start, hy, i);
  }

  // ----- Rewriting the references of the kept records ---------------------------------------------

  /** The new id of old id i. */
  ghost function NewId(g0: seq<Type>, m: seq<nat>, hy: seq<nat>, i: nat): nat
    requires WellLinked(g0, m) && |hy| == |m| && i < |m|
  {
    hy[Root(g0, m, i)]
  }

  /** Record t with its first k references renumbered. */
  ghost predicate RemappedTo(g0: seq<Type>, m: seq<nat>, hy: seq<nat>, t: Type, t': Type, k: nat)
    requires WellLinked(g0, m) && |hy| == |m| && k <= |t.refs|
  {
    && Label(t') == Label(t) && |t'.refs| == |t.refs|
    && (forall j :: 0 <= j < k ==> t.refs[j] < |m| && t'.refs[j] == NewId(g0, m, hy, t.refs[j]))
    && (forall j :: k <= j < |t.refs| ==> t'.refs[j] == t.refs[j])
  }

  ghost predicate Remapped(g0: seq<Type>, m: seq<nat>, hy: seq<nat>, start: nat, out: seq<Type>, out': seq<Type>, p: nat)
    requires WellLinked(g0, m) && |hy| == |m|
  {
    && |out| == |out'|
    && (forall i :: 0 <= i < |out| && !(start <= i < p) ==> out'[i] == out[i])
    && (forall i :: start <= i < p && i < |out| ==> RemappedTo(g0, m, hy, out[i], out'[i], |out[i].refs|))
  }

  // ----- The result of deduplication --------------------------------------------------------------

  /** Base types refer to base types only. */
  ghost predicate BaseClosed(g: seq<Type>, start: nat) {
    forall i, k :: 0 <= i < start && i < |g| && 0 <= k < |g[i].refs| ==> g[i].refs[k] < start
  }

  /** Everything the passes leave behind: g is the rewritten graph, out the compacted and out' the final one. */
  ghost predicate Finished(g0: seq<Type>, g: seq<Type>, m: seq<nat>, start: nat, out: seq<Type>, hy: seq<nat>, out': seq<Type>) {
    && |g0| == |g| == |m| <= MAX_NR_TYPES && ValidGraph(g0) && BaseClosed(g0, start)
    && GraphPart(g0, g, m, start) && LinkPart(g0, m, start) && AllMapped(m) && WellLinked(g0, m)
    && Compacted(g, m, start, out, hy) && |out'| == |out| && Remapped(g0, m, hy, start, out, out', |out|)
  }

  lemma RootKept(g0: seq<Type>, m: seq<nat>, start: nat, i: nat)
    requires LinkPart(g0, m, start) && WellLinked(g0, m) && AllMapped(m) && i < |m|
    ensures m[Root(g0, m, i)] == Root(g0, m, i)
  {
    hide LinkPart;
    assert IsMapped(m, Root(g0, m, i));
  }

  /** Remapping always finds a new id. */
  lemma NewIdInRange(g0: seq<Type>, g: seq<Type>, m: seq<nat>, start: nat, out: seq<Type>, hy: seq<nat>, i: nat)
    requires LinkPart(g0, m, start) && WellLinked(g0, m) && AllMapped(m) && Compacted(g, m, start, out, hy) && i < |m|
    ensures NewId(g0, m, hy, i) < |out|
  {
    RootKept(g0, m, start, i);
  }

  lemma ClosedOutput(g0: seq<Type>, g: seq<Type>, m: seq<nat>, start: nat, out: seq<Type>, hy: seq<nat>, out': seq<Type>)
    requires Finished(g0, g, m, start, out, hy, out')
    ensures ClosedRefs(out')
  {
    hide GraphPart, LinkPart, WellLinked, ValidGraph;
    forall j, k | 0 <= j < |out'| && 0 <= k < |out'[j].refs| ensures out'[j].refs[k] < |out'| {
      var i := PlacesOnto(g, m, start, out, hy, j);
      if j < start {
        BaseRecord(g0, g, m, start, out, hy, out', j);
      } else {
        assert RemappedTo(g0, m, hy, out[j], out'[j], |out[j].refs|);
        NewIdInRange(g0, g, m, start, out, hy, out[j].refs[k]);
      }
    }
  }

  lemma BaseRecord(g0: seq<Type>, g: seq<Type>, m: seq<nat>, start: nat, out: seq<Type>, hy: seq<nat>, out': seq<Type>, i: nat)
    requires Finished(g0, g, m, start, out, hy, out') && i < start
    ensures i < |g0| && i < |out'| && out'[i] == g[i] == g0[i] && hy[i] == i && start <= |out'|
    ensures forall k :: 0 <= k < |g0[i].refs| ==> g0[i].refs[k] < start
  {
    hide LinkPart, WellLinked, ValidGraph, MeaningKept, ClosedRefs, SameLabels, NoForwards;
    assert PlacedAt(m, start, hy, i);
  }

  lemma RootOfSelf(g0: seq<Type>, m: seq<nat>, i: nat)
    requires WellLinked(g0, m) && i < |m| && m[i] == i
    ensures Root(g0, m, i) == i
  {
    hide WellLinked;
  }

  /** Where type i is found in the output: base types stay, others are at their new id. */
  ghost function Places(g0: seq<Type>, m: seq<nat>, hy: seq<nat>, start: nat): (place: seq<nat>)
    requires WellLinked(g0, m) && |hy| == |m|
    ensures |place| == |m|
  {
    seq(|m|, i requires 0 <= i < |m| => if i < start then i else NewId(g0, m, hy, i))
  }

  ghost function Roots(g0: seq<Type>, m: seq<nat>, start: nat): seq<nat>
    requires WellLinked(g0, m)
  {
    seq(|m|, i requires 0 <= i < |m| => if i < start then i else Root(g0, m, i))
  }

  /** Equal meaning in the input graph is equal meaning in the rewritten graph. */
  lemma RootMeaning(g0: seq<Type>, g: seq<Type>, m: seq<nat>, start: nat, i: nat)
    requires GraphPart(g0, g, m, start) && LinkPart(g0, m, start) && WellLinked(g0, m) && i < |m|
    ensures Bisim(g, i, Root(g0, m, i)) && Declared(g) == Declared(g0)
    ensures MeaningOf(Declared(g0), g0, i) == MeaningOf(Declared(g0), g, i)
  {
    LinksOkParts(g0, m);
    RootSound(g0, m, i);
    RewriteKeepsMeaning(g0, g, i);
    RewriteKeepsMeaning(g0, g, Root(g0, m, i));
  }

  /** New ids are places of representatives. */
  lemma PlaceOfRoot(g0: seq<Type>, g: seq<Type>, m: seq<nat>, start: nat, out: seq<Type>, hy: seq<nat>, out': seq<Type>, i: nat)
    requires Finished(g0, g, m, start, out, hy, out') && i < |m|
    ensures Places(g0, m, hy, start)[Root(g0, m, i)] == NewId(g0, m, hy, i)
  {
    hide GraphPart, LinkPart, WellLinked, ValidGraph, Compacted, Remapped;
    var r := Root(g0, m, i);
    RootKept(g0, m, start, i);
    RootOfSelf(g0, m, r);
    if r < start { BaseRecord(g0, g, m, start, out, hy, out', r); }
  }

  lemma NewIdIsPlace(g0: seq<Type>, g: seq<Type>, m: seq<nat>, start: nat, out: seq<Type>, hy: seq<nat>, out': seq<Type>, x: nat)
    requires Finished(g0, g, m, start, out, hy, out') && x < |m| && ClosedRefs(g)
    ensures PlaceFor(g, Places(g0, m, hy, start), x, NewId(g0, m, hy, x))
  {
    hide GraphPart, LinkPart, WellLinked, ValidGraph, Compacted, Remapped, ClosedRefs, Bisim, Places, NewId;
    RootMeaning(g0, g, m, start, x);
    PlaceOfRoot(g0, g, m, start, out, hy, out', x);
  }

  /** The record kept for representative r. */
  lemma KeptRecord(g0: seq<Type>, g: seq<Type>, m: seq<nat>, start: nat, out: seq<Type>, hy: seq<nat>, out': seq<Type>, r: nat)
    requires Finished(g0, g, m, start, out, hy, out') && start <= r < |m| && m[r] == r && ClosedRefs(g)
    ensures hy[r] < |out'|
    ensures Label(out'[hy[r]]) == Label(g[r]) && |out'[hy[r]].refs| == |g[r].refs|
    ensures forall k :: 0 <= k < |g[r].refs| ==> PlaceFor(g, Places(g0, m, hy, start), g[r].refs[k], out'[hy[r]].refs[k])
  {
    hide GraphPart, LinkPart, WellLinked, ValidGraph, PlaceFor, Places;
    assert PlacedAt(m, start, hy, r);
    assert RemappedTo(g0, m, hy, out[hy[r]], out'[hy[r]], |out[hy[r]].refs|);
    forall k | 0 <= k < |g[r].refs| ensures PlaceFor(g, Places(g0, m, hy, start), g[r].refs[k], out'[hy[r]].refs[k]) {
      NewIdIsPlace(g0, g, m, start, out, hy, out', g[r].refs[k]);
    }
  }

  lemma BasePlace(g: seq<Type>, place: seq<nat>, x: nat)
    requires ClosedRefs(g) && |place| == |g| && x < |g| && place[x] == x
    ensures PlaceFor(g, place, x, x)
  {
    EqualRecordsBisim(g, x, x);
    hide Bisim;
  }

  lemma BaseRepresented(g0: seq<Type>, g: seq<Type>, m: seq<nat>, start: nat, out: seq<Type>, hy: seq<nat>, out': seq<Type>, i: nat)
    requires Finished(g0, g, m, start, out, hy, out') && i < start && i < |m| && ClosedRefs(g)
    ensures RepresentedBy(g, out', Places(g0, m, hy, start), i, i)
  {
    assert |hy| == |m| && start <= |m|;
    hide GraphPart, LinkPart, WellLinked, ValidGraph, Compacted, Remapped, ClosedRefs, Bisim, NewId, PlaceFor;
    BaseRecord(g0, g, m, start, out, hy, out', i);
    EqualRecordsBisim(g, i, i);
    forall k | 0 <= k < |g[i].refs| ensures PlaceFor(g, Places(g0, m, hy, start), g[i].refs[k], out'[i].refs[k]) {
      BaseRecord(g0, g, m, start, out, hy, out', g[i].refs[k]);
      BasePlace(g, Places(g0, m, hy, start), g[i].refs[k]);
    }
  }

  lemma Represented(g0: seq<Type>, g: seq<Type>, m: seq<nat>, start: nat, out: seq<Type>, hy: seq<nat>, out': seq<Type>, i: nat)
    requires Finished(g0, g, m, start, out, hy, out') && i < |m| && ClosedRefs(g)
    ensures RepresentedBy(g, out', Places(g0, m, hy, start), i, Roots(g0, m, start)[i])
  {
    hide GraphPart, LinkPart, WellLinked, ValidGraph, Compacted, Remapped, ClosedRefs, Bisim, PlaceFor;
    if i < start {
      BaseRepresented(g0, g, m, start, out, hy, out', i);
    } else {
      var r := Root(g0, m, i);
      RootKept(g0, m, start, i);
      RootMeaning(g0, g, m, start, i);
      if r < start {
        BaseRepresented(g0, g, m, start, out, hy, out', r);
        BaseRecord(g0, g, m, start, out, hy, out', r);
      } else {
        KeptRecord(g0, g, m, start, out, hy, out', r);
      }
    }
  }

  lemma EverythingRepresented(g0: seq<Type>, g: seq<Type>, m: seq<nat>, start: nat, out: seq<Type>, hy: seq<nat>, out': seq<Type>)
    requires Finished(g0, g, m, start, out, hy, out') && ClosedRefs(g)
    ensures AllRepresented(g, out', Places(g0, m, hy, start), Roots(g0, m, start))
  {
    ClosedOutput(g0, g, m, start, out, hy, out');
    hide GraphPart, LinkPart, WellLinked, ValidGraph, Compacted, Remapped, ClosedRefs, RepresentedBy, NewId, Root;
    forall j | 0 <= j < |g| ensures RepresentedBy(g, out', Places(g0, m, hy, start), j, Roots(g0, m, start)[j]) {
      Represented(g0, g, m, start, out, hy, out', j);
    }
  }

  /** Deduplication changes no meaning: every type of the input and its new id have the same unfoldings. */
  lemma DedupKeepsMeaning(g0: seq<Type>, g: seq<Type>, m: seq<nat>, start: nat, out: seq<Type>, hy: seq<nat>, out': seq<Type>, i: nat)
    requires Finished(g0, g, m, start, out, hy, out') && i < |g0|
    ensures ClosedRefs(g0) && ClosedRefs(out') && NewId(g0, m, hy, i) < |out'| && (i < start ==> i < |out'|)
    ensures MeaningOf(Declared(g0), g0, i) == MeaningOf(Declared(g0), out', NewId(g0, m, hy, i))
    ensures i < start ==> MeaningOf(Declared(g0), g0, i) == MeaningOf(Declared(g0), out', i)
  {
    assert ClosedRefs(g0) && ClosedRefs(g);
    EverythingRepresented(g0, g, m, start, out, hy, out');
    var place, r := Places(g0, m, hy, start), Root(g0, m, i);
    assert ClosedRefs(out') && (i < start ==> place[i] == i);
    hide GraphPart, LinkPart, WellLinked, ValidGraph, Compacted, Remapped, ClosedRefs, AllRepresented, Places, Roots, NewId, Root;
    RootMeaning(g0, g, m, start, i);
    PlaceOfRoot(g0, g, m, start, out, hy, out', i);
    RenumberKeepsMeaning(g, out', place, Roots(g0, m, start), r);
    if i < start { RenumberKeepsMeaning(g, out', place, Roots(g0, m, start), i); }
  }

  // ----- No duplicates are left -------------------------------------------------------------------

  predicate Kept(m: seq<nat>, start: nat, i: nat) { i < |m| && (i < start || m[i] == i) }

  lemma PlacesInjective(g: seq<Type>, m: seq<nat>, start: nat, out: seq<Type>, hy: seq<nat>, i: nat, j: nat)
    requires Compacted(g, m, start, out, hy) && Kept(m, start, i) && Kept(m, start, j) && hy[i] == hy[j]
    ensures i == j
  {
    if i < j { PlacesIncrease(g, m, start, out, hy, i, j); }
    if j < i { PlacesIncrease(g, m, start, out, hy, j, i); }
  }

  /** Old id x stands behind reference k of the output record that was old record i. */
  ghost predicate RefFrom(g: seq<Type>, m: seq<nat>, start: nat, hy: seq<nat>, i: nat, k: nat, v: nat)
    requires |g| == |m| == |hy| && i < |m| && k < |g[i].refs|
  {
    Kept(m, start, g[i].refs[k]) && hy[g[i].refs[k]] == v
  }

  lemma SettledRefFrom(g0: seq<Type>, g: seq<Type>, m: seq<nat>, start: nat, out: seq<Type>, hy: seq<nat>, out': seq<Type>, i: nat, k: nat)
    requires Finished(g0, g, m, start, out, hy, out') && Kept(m, start, i) && IsRef(g0[i])
    requires Settled(g0, g, m, start) && k < |g[i].refs|
    ensures hy[i] < |out'| && |out'[hy[i]].refs| == |g[i].refs| && Label(out'[hy[i]]) == Label(g[i])
    ensures RefFrom(g, m, start, hy, i, k, out'[hy[i]].refs[k])
  {
    hide GraphPart, LinkPart, WellLinked, ValidGraph;
    if i < start {
      BaseRecord(g0, g, m, start, out, hy, out', i);
      BaseRecord(g0, g, m, start, out, hy, out', g[i].refs[k]);
    } else {
      assert PlacedAt(m, start, hy, i);
      assert RemappedTo(g0, m, hy, out[hy[i]], out'[hy[i]], |out[hy[i]].refs|);
      assert SettledTo(g, m, i, |g[i].refs|);
      RootOfSelf(g0, m, g[i].refs[k]);
    }
  }

  lemma EqualRefsBack(g0: seq<Type>, g: seq<Type>, m: seq<nat>, start: nat, out: seq<Type>, hy: seq<nat>, out': seq<Type>, i: nat, j: nat)
    requires Finished(g0, g, m, start, out, hy, out') && Settled(g0, g, m, start)
    requires Kept(m, start, i) && Kept(m, start, j) && IsRef(g0[i]) && IsRef(g0[j])
    requires |g[i].refs| == |g[j].refs| && hy[i] < |out'| && hy[j] < |out'| && out'[hy[i]] == out'[hy[j]]
    ensures g[i].refs == g[j].refs
  {
    hide GraphPart, LinkPart, WellLinked, ValidGraph, Remapped, Settled;
    forall k | 0 <= k < |g[i].refs| ensures g[i].refs[k] == g[j].refs[k] {
      SettledRefFrom(g0, g, m, start, out, hy, out', i, k);
      SettledRefFrom(g0, g, m, start, out, hy, out', j, k);
      hide Finished;
      PlacesInjective(g, m, start, out, hy, g[i].refs[k], g[j].refs[k]);
    }
  }

  /** The label of an output record is that of the input record it comes from. */
  lemma OutputLabel(g0: seq<Type>, g: seq<Type>, m: seq<nat>, start: nat, out: seq<Type>, hy: seq<nat>, out': seq<Type>, i: nat)
    requires Finished(g0, g, m, start, out, hy, out') && Kept(m, start, i)
    ensures hy[i] < |out'| && Label(out'[hy[i]]) == Label(g[i]) == Label(g0[i]) && |out'[hy[i]].refs| == |g[i].refs| == |g0[i].refs|
  {
    hide LinkPart, WellLinked, ValidGraph, MeaningKept, ClosedRefs, NoForwards, Untouched;
    assert PlacedAt(m, start, hy, i);
    if start <= i && hy[i] < |out| {
      assert RemappedTo(g0, m, hy, out[hy[i]], out'[hy[i]], |out[hy[i]].refs|);
    }
  }

  /** Kept records with increasing places come in the same order; non-forward ones are representatives. */
  lemma SourceOrder(g0: seq<Type>, g: seq<Type>, m: seq<nat>, start: nat, out: seq<Type>, hy: seq<nat>, i: nat, j: nat)
    requires LinkPart(g0, m, start) && Compacted(g, m, start, out, hy) && |g| == |g0|
    requires Kept(m, start, i) && Kept(m, start, j) && hy[i] < hy[j] && start <= hy[j]
    ensures i < j && start <= j && m[j] == j && (!IsForward(g0[i]) || start <= i ==> m[i] == i)
  {
    hide LinksOk, ClosedRefs, EarlierDistinct;
    assert PlacedAt(m, start, hy, i) && PlacedAt(m, start, hy, j);
    if j < i { PlacesIncrease(g, m, start, out, hy, j, i); }
  }

  lemma LabelIsRecord(a: Type, b: Type)
    requires WellFormed(a) && WellFormed(b) && IsPrim(b) && (b.kind != Fwd || a.refs == b.refs)
    ensures Label(a) == Label(b) ==> a == b
  {
  }

  /** Representative primitives differ in their labels. */
  lemma PrimSources(g0: seq<Type>, m: seq<nat>, start: nat, i: nat, j: nat)
    requires ValidGraph(g0) && |m| == |g0| && PrimsDistinct(g0, m, start, |g0|)
    requires i < j < |g0| && start <= j && m[j] == j && (!IsForward(g0[i]) || start <= i ==> m[i] == i)
    requires IsPrim(g0[j]) && (IsForward(g0[j]) ==> start <= i) && (g0[j].kind == Fwd ==> g0[i].refs == g0[j].refs)
    ensures Label(g0[i]) != Label(g0[j])
  {
    hide ClosedRefs;
    if Label(g0[i]) == Label(g0[j]) { LabelKinds(g0[i], g0[j]); }
    LabelIsRecord(g0[i], g0[j]);
  }

  lemma RefSources(g0: seq<Type>, g: seq<Type>, m: seq<nat>, tbl: multiset<Entry>, start: nat, i: nat, j: nat)
    requires ReprPart(g0, g, m, tbl, start) && i < j < |g0| && start <= j && m[i] == i && m[j] == j
    requires IsRef(g0[i]) && IsRef(g0[j]) && Label(g[i]) == Label(g[j])
    ensures g[i].refs != g[j].refs
  {
    hide RefTable, RefsListed, Settled;
    assert g[i] != g[j];
  }

  /** A record that must not occur twice: any primitive or reference type and, outside the base, any forward
      declaration whose unused third word is 0. */
  predicate OccursOnce(t: Type, inBase: bool) {
    (IsPrim(t) || IsRef(t)) && (IsForward(t) ==> !inBase && (t.kind == Fwd ==> t.refs == [0]))
  }

  /** Only void gets the new id 0. */
  lemma OnlyVoidIsZero(g0: seq<Type>, g: seq<Type>, m: seq<nat>, start: nat, out: seq<Type>, hy: seq<nat>, out': seq<Type>, x: nat)
    requires Finished(g0, g, m, start, out, hy, out') && 1 <= start && x < |m| && NewId(g0, m, hy, x) == 0
    ensures x == 0
  {
    hide GraphPart, LinkPart, WellLinked, Remapped, ClosedRefs, Root;
    var r := Root(g0, m, x);
    RootKept(g0, m, start, x);
    RootKinds(g0, m, x);
    assert PlacedAt(m, start, hy, r);
  }

  lemma ZeroWord(g0: seq<Type>, g: seq<Type>, m: seq<nat>, start: nat, out: seq<Type>, hy: seq<nat>, out': seq<Type>, i: nat)
    requires Finished(g0, g, m, start, out, hy, out') && 1 <= start <= i && Kept(m, start, i) && g0[i].kind == Fwd
    requires hy[i] < |out'| && out'[hy[i]].refs == [0]
    ensures g0[i].refs == [0]
  {
    hide LinkPart, WellLinked, ValidGraph, MeaningKept, ClosedRefs, SameLabels, NewId;
    assert PlacedAt(m, start, hy, i);
    assert g[i] == g0[i];
    var t := out[hy[i]];
    assert RemappedTo(g0, m, hy, t, out'[hy[i]], |t.refs|);
    hide GraphPart;
    OnlyVoidIsZero(g0, g, m, start, out, hy, out', t.refs[0]);
  }

  /** No two output records of a primitive or reference kind are equal, unless both belong to the base or
      one of them is a forward declaration of the base. */
  lemma OutputDistinct(g0: seq<Type>, g: seq<Type>, m: seq<nat>, tbl: multiset<Entry>, start: nat,
                       out: seq<Type>, hy: seq<nat>, out': seq<Type>, a: nat, b: nat)
    requires Finished(g0, g, m, start, out, hy, out') && ReprPart(g0, g, m, tbl, start)
    requires 1 <= start && a < b < |out'| && start <= b && OccursOnce(out'[b], a < start)
    ensures out'[a] != out'[b]
  {
    hide GraphPart, WellLinked, ValidGraph, Remapped, Compacted, EarlierDistinct, LinksOk, ClosedRefs;
    var i := PlacesOnto(g, m, start, out, hy, a);
    var j := PlacesOnto(g, m, start, out, hy, b);
    OutputLabel(g0, g, m, start, out, hy, out', i);
    OutputLabel(g0, g, m, start, out, hy, out', j);
    SourceOrder(g0, g, m, start, out, hy, i, j);
    PlaceFrom(g, m, start, out, hy, i);
    LabelKinds(out'[b], g0[j]);
    if IsPrim(g0[j]) {
      PrimDistinct(g0, g, m, start, out, hy, out', i, j);
    } else if Label(g0[i]) == Label(g0[j]) {
      LabelKinds(g0[i], g0[j]);
      RefSources(g0, g, m, tbl, start, i, j);
      if out'[a] == out'[b] { EqualRefsBack(g0, g, m, start, out, hy, out', i, j); }
    }
  }

  lemma PrimDistinct(g0: seq<Type>, g: seq<Type>, m: seq<nat>, start: nat, out: seq<Type>, hy: seq<nat>, out': seq<Type>, i: nat, j: nat)
    requires Finished(g0, g, m, start, out, hy, out') && 1 <= start && Kept(m, start, i) && Kept(m, start, j) && i < j && start <= j
    requires hy[i] < |out'| && hy[j] < |out'| && Label(out'[hy[i]]) == Label(g0[i]) && Label(out'[hy[j]]) == Label(g0[j])
    requires IsPrim(g0[j]) && OccursOnce(out'[hy[j]], i < start) && (!IsForward(g0[i]) || start <= i ==> m[i] == i)
    ensures out'[hy[i]] != out'[hy[j]]
  {
    assert |hy| == |m|;
    hide Finished;
    if out'[hy[i]] == out'[hy[j]] {
      FinishedPrims(g0, g, m, start, out, hy, out');
      SameHead(out'[hy[i]], g0[i]);
      SameHead(out'[hy[j]], g0[j]);
      LabelKinds(out'[hy[j]], g0[j]);
      if g0[j].kind == Fwd {
        ZeroWord(g0, g, m, start, out, hy, out', i);
        ZeroWord(g0, g, m, start, out, hy, out', j);
      }
      hide PrimsDistinct, ValidGraph, OccursOnce;
      PrimSources(g0, m, start, i, j);
    }
  }

  lemma FinishedPrims(g0: seq<Type>, g: seq<Type>, m: seq<nat>, start: nat, out: seq<Type>, hy: seq<nat>, out': seq<Type>)
    requires Finished(g0, g, m, start, out, hy, out')
    ensures ValidGraph(g0) && |m| == |g0| && PrimsDistinct(g0, m, start, |g0|)
  {
    hide ValidGraph, GraphPart, Compacted, Remapped, WellLinked, LinkPart, PrimsDistinct;
    EarlierPrims(g0, m, start);
  }

  lemma LabelKinds(a: Type, b: Type)
    requires Label(a) == Label(b)
    ensures IsPrim(a) == IsPrim(b) && IsRef(a) == IsRef(b) && IsForward(a) == IsForward(b)
  {
    assert a.kind == b.kind && a.vlen == b.vlen;
  }

  lemma EarlierPrims(g0: seq<Type>, m: seq<nat>, start: nat)
    requires LinkPart(g0, m, start)
    ensures PrimsDistinct(g0, m, start, |g0|)
  {
    hide LinksOk, ClosedRefs, PrimsDistinct;
  }

  // ----- Forward declarations that are left -------------------------------------------------------

  /** c is the only composite of its name in out, and of the given kind. */
  ghost predicate OnlyDefinition(out: seq<Type>, name: nat, kind: Kind, c: nat) {
    && c < |out| && IsComposite(out[c]) && out[c].name == name && out[c].kind == kind
    && forall i :: 0 <= i < |out| && IsComposite(out[i]) && out[i].name == name ==> i == c
  }

  /** No declaration outside the base is left whose definition is the only composite of its name. */
  ghost predicate DeclarationsResolved(out: seq<Type>, start: nat) {
    forall j, c: nat :: start <= j < |out| && out[j].kind == Fwd ==> !OnlyDefinition(out, out[j].name, FwdKind(out[j]), c)
  }

  /** The kept composite behind the only definition of a name is its only representative. */
  lemma OnlySource(g0: seq<Type>, g: seq<Type>, m: seq<nat>, start: nat, out: seq<Type>, hy: seq<nat>, out': seq<Type>,
                   name: nat, kind: Kind, c: nat) returns (v: nat)
    requires Finished(g0, g, m, start, out, hy, out') && OnlyDefinition(out', name, kind, c)
    ensures v < |g0| && OnlyBelow(g0, m, |g0|, name, v) && g0[v].kind == kind && hy[v] == c
  {
    assert |hy| == |m| == |g0|;
    hide GraphPart, WellLinked, ValidGraph, Remapped, Compacted, LinksOk, ClosedRefs, EarlierDistinct;
    v := PlacesOnto(g, m, start, out, hy, c);
    OutputLabel(g0, g, m, start, out, hy, out', v);
    SameHead(out'[c], g0[v]);
    assert m[v] == v;
    forall i | 0 <= i < |g0| && RepresentsName(g0, m, i, name) ensures i == v {
      OutputLabel(g0, g, m, start, out, hy, out', i);
      SameHead(out'[hy[i]], g0[i]);
      PlacesInjective(g, m, start, out, hy, i, v);
    }
  }

  lemma SameHead(a: Type, b: Type)
    requires Label(a) == Label(b)
    ensures a.kind == b.kind && a.kflag == b.kflag && a.name == b.name
  {
    assert Label(a).kind == a.kind && Label(a).kflag == a.kflag && Label(a).name == a.name;
  }

  lemma FinishedResolves(g0: seq<Type>, g: seq<Type>, m: seq<nat>, start: nat, out: seq<Type>, hy: seq<nat>, out': seq<Type>)
    requires Finished(g0, g, m, start, out, hy, out') && NoneResolvable(g0, m, start)
    ensures DeclarationsResolved(out', start)
  {
    hide GraphPart, LinkPart, WellLinked, ValidGraph, Remapped, Compacted, OnlyDefinition, OnlyBelow;
    forall j, c: nat | start <= j < |out'| && out'[j].kind == Fwd ensures !OnlyDefinition(out', out'[j].name, FwdKind(out'[j]), c) {
      var i := PlacesOnto(g, m, start, out, hy, j);
      PlaceOfBase(g, m, start, out, hy, i);
      PlaceFrom(g, m, start, out, hy, i);
      OutputLabel(g0, g, m, start, out, hy, out', i);
      SameHead(out'[j], g0[i]);
      if OnlyDefinition(out', out'[j].name, FwdKind(out'[j]), c) {
        var v := OnlySource(g0, g, m, start, out, hy, out', out'[j].name, FwdKind(out'[j]), c);
        assert false;
      }
    }
  }

  lemma PlaceFrom(g: seq<Type>, m: seq<nat>, start: nat, out: seq<Type>, hy: seq<nat>, i: nat)
    requires Compacted(g, m, start, out, hy) && i < |m| && (i < start || m[i] == i)
    ensures start <= hy[i] <==> start <= i
  {
    assert PlacedAt(m, start, hy, i);
  }

  /** A forward-declared enum outside the base is the only enum of its name, declarations of the base aside. */
  ghost predicate EnumsDefined(out: seq<Type>, start: nat) {
    forall a, b :: start <= a < |out| && 0 <= b < |out| && a != b && IsEnumFwd(out[a]) && (IsEnumFwd(out[b]) ==> start <= b) ==>
      !DeclaredEnum(out[a], out[b])
  }

  lemma FinishedEnums(g0: seq<Type>, g: seq<Type>, m: seq<nat>, start: nat, out: seq<Type>, hy: seq<nat>, out': seq<Type>)
    requires Finished(g0, g, m, start, out, hy, out')
    ensures EnumsDefined(out', start)
  {
    hide Finished;
    forall a, b | start <= a < |out'| && 0 <= b < |out'| && a != b && IsEnumFwd(out'[a]) && (IsEnumFwd(out'[b]) ==> start <= b)
      ensures !DeclaredEnum(out'[a], out'[b])
    {
      if DeclaredEnum(out'[a], out'[b]) { EnumSources(g0, g, m, start, out, hy, out', a, b); }
    }
  }

  lemma EnumSources(g0: seq<Type>, g: seq<Type>, m: seq<nat>, start: nat, out: seq<Type>, hy: seq<nat>, out': seq<Type>, a: nat, b: nat)
    requires Finished(g0, g, m, start, out, hy, out') && start <= a < |out'| && b < |out'| && a != b
    requires IsEnumFwd(out'[a]) && (IsEnumFwd(out'[b]) ==> start <= b)
    ensures !DeclaredEnum(out'[a], out'[b])
  {
    FinishedPrims(g0, g, m, start, out, hy, out');
    hide GraphPart, WellLinked, ValidGraph, Remapped, Compacted, LinksOk, ClosedRefs, EarlierDistinct;
    var i := PlacesOnto(g, m, start, out, hy, a);
    var j := PlacesOnto(g, m, start, out, hy, b);
    PlaceFrom(g, m, start, out, hy, i);
    PlaceFrom(g, m, start, out, hy, j);
    OutputLabel(g0, g, m, start, out, hy, out', i);
    OutputLabel(g0, g, m, start, out, hy, out', j);
    LabelKinds(out'[b], g0[j]);
    if DeclaredEnum(out'[a], out'[b]) {
      SameEnums(out'[a], out'[b], g0[i], g0[j]);
      assert m[j] == j;
      hide LinkPart, DeclaredEnum, Finished;
      NotBothEnums(g0, m, start, i, j);
    }
  }

  lemma NotBothEnums(g: seq<Type>, m: seq<nat>, start: nat, i: nat, j: nat)
    requires |m| == |g| && PrimsDistinct(g, m, start, |g|) && start <= i < |g| && j < |g| && i != j && m[i] == i && m[j] == j
    ensures !DeclaredEnum(g[i], g[j])
  {
    if i < j { assert DeclaredEnum(g[i], g[j]) ==> Apart(g[i], g[j]); } else { assert DeclaredEnum(g[j], g[i]) ==> Apart(g[j], g[i]); }
  }

  lemma SameEnums(a: Type, b: Type, x: Type, y: Type)
    requires Label(a) == Label(x) && Label(b) == Label(y) && DeclaredEnum(a, b)
    ensures DeclaredEnum(x, y) && DeclaredEnum(y, x) && IsPrim(x) && IsPrim(y)
  {
    SameHead(a, x);
    SameHead(b, y);
    assert a.vlen == Label(a).vlen == x.vlen && b.vlen == Label(b).vlen == y.vlen;
  }

  /** Old references to a declaration and to the only definition of its name get the same new id, unless the
      declaration was found equal to one of the base. */
  ghost predicate DefinitionsShared(g0: seq<Type>, m: seq<nat>, hy: seq<nat>, start: nat, out: seq<Type>)
    requires Renumbered(g0, m, hy, start, out)
  {
    forall i, c: nat :: 0 <= i < |g0| && (g0[i].kind == Fwd || IsComposite(g0[i])) && OnlyDefinition(out, g0[i].name, TagOf(g0[i]).kind, c) ==>
      NewId(g0, m, hy, i) == c || DeclaredInBase(g0, out, start, i, NewId(g0, m, hy, i))
  }

  predicate DeclaredInBase(g0: seq<Type>, out: seq<Type>, start: nat, i: nat, j: nat)
    requires i < |g0|
  {
    g0[i].kind == Fwd && j < start && j < |out| && out[j].kind == Fwd && TagOf(out[j]) == TagOf(g0[i])
  }

  /** The representative of a declaration or composite carries its tag. */
  lemma RootTag(g0: seq<Type>, m: seq<nat>, start: nat, i: nat)
    requires LinkPart(g0, m, start) && WellLinked(g0, m) && i < |m| && (g0[i].kind == Fwd || IsComposite(g0[i]))
    ensures var r := Root(g0, m, i); TagOf(g0[r]) == TagOf(g0[i]) && (IsComposite(g0[r]) || g0[r].kind == Fwd) && (IsComposite(g0[i]) ==> IsComposite(g0[r]))
  {
    var r := Root(g0, m, i);
    LinksOkParts(g0, m);
    RootSound(g0, m, i);
    RootKinds(g0, m, i);
    hide WellLinked, LinkPart, Root, LinksSound;
    MeaningAt(Declared(g0), g0, i, g0, r, 1);
    SeenTag(g0, i);
    SeenTag(g0, r);
  }

  lemma SeenTag(g: seq<Type>, i: nat)
    requires ClosedRefs(g) && i < |g| && (g[i].kind == Fwd || IsComposite(g[i]))
    ensures Unfold(Declared(g), g, i, 1).Node? && TagOf(g[i]) == Tag(Unfold(Declared(g), g, i, 1).record.kind, Unfold(Declared(g), g, i, 1).record.name)
  {
    if g[i].kind == Fwd { assert TagOf(g[i]) in Declared(g); }
  }

  lemma FinishedShares(g0: seq<Type>, g: seq<Type>, m: seq<nat>, start: nat, out: seq<Type>, hy: seq<nat>, out': seq<Type>)
    requires Finished(g0, g, m, start, out, hy, out') && Renumbered(g0, m, hy, start, out') && NoneResolvable(g0, m, start)
    ensures DefinitionsShared(g0, m, hy, start, out')
  {
    hide Finished, Renumbered, WellLinked, OnlyDefinition, NoneResolvable, Root, DeclaredInBase;
    assert |hy| == |m| == |g0| && WellLinked(g0, m) by { Shape(g0, g, m, start, out, hy, out'); }
    forall i, c: nat | 0 <= i < |g0| && (g0[i].kind == Fwd || IsComposite(g0[i])) && OnlyDefinition(out', g0[i].name, TagOf(g0[i]).kind, c)
      ensures NewId(g0, m, hy, i) == c || DeclaredInBase(g0, out', start, i, NewId(g0, m, hy, i))
    {
      SharedAt(g0, g, m, start, out, hy, out', i, c);
    }
  }

  lemma Shape(g0: seq<Type>, g: seq<Type>, m: seq<nat>, start: nat, out: seq<Type>, hy: seq<nat>, out': seq<Type>)
    requires Finished(g0, g, m, start, out, hy, out')
    ensures |hy| == |m| == |g0| && WellLinked(g0, m)
  {
  }

  lemma SharedAt(g0: seq<Type>, g: seq<Type>, m: seq<nat>, start: nat, out: seq<Type>, hy: seq<nat>, out': seq<Type>, i: nat, c: nat)
    requires Finished(g0, g, m, start, out, hy, out') && NoneResolvable(g0, m, start)
    requires i < |g0| && (g0[i].kind == Fwd || IsComposite(g0[i])) && OnlyDefinition(out', g0[i].name, TagOf(g0[i]).kind, c)
    ensures NewId(g0, m, hy, i) == c || DeclaredInBase(g0, out', start, i, NewId(g0, m, hy, i))
  {
    FinishedResolves(g0, g, m, start, out, hy, out');
    assert |hy| == |m| == |g0| && Compacted(g, m, start, out, hy);
    hide GraphPart, LinkPart, WellLinked, ValidGraph, Remapped, Compacted, Root, NoneResolvable;
    var r := Root(g0, m, i);
    RootKept(g0, m, start, i);
    RootTag(g0, m, start, i);
    OutputLabel(g0, g, m, start, out, hy, out', r);
    SameHead(out'[hy[r]], g0[r]);
    if g0[r].kind == Fwd {
      PlaceFrom(g, m, start, out, hy, r);
      assert !OnlyDefinition(out', out'[hy[r]].name, FwdKind(out'[hy[r]]), c) || hy[r] < start;
    }
  }

  // ----- Summary ----------------------------------------------------------------------------------

  ghost predicate IsNewId(g0: seq<Type>, m: seq<nat>, hy: seq<nat>, j: nat)
    requires WellLinked(g0, m) && |hy| == |m|
  {
    exists i :: 0 <= i < |m| && NewId(g0, m, hy, i) == j
  }

  /** Every old id has a new id, and every new id is the new id of an old one. */
  ghost predicate Renumbered(g0: seq<Type>, m: seq<nat>, hy: seq<nat>, start: nat, out: seq<Type>) {
    && |m| == |hy| == |g0| && WellLinked(g0, m) && ClosedRefs(out)
    && (forall i :: 0 <= i < |m| ==> NewId(g0, m, hy, i) < |out|)
    && (forall j :: start <= j < |out| ==> IsNewId(g0, m, hy, j))
    && (forall i, j :: 0 <= i < j < |m| && Kept(m, start, i) && Kept(m, start, j) ==> hy[i] < hy[j])
  }

  /** Every type means the same as its new id, and base types keep their meaning in place. */
  ghost predicate MeaningPreserved(g0: seq<Type>, m: seq<nat>, hy: seq<nat>, start: nat, out: seq<Type>)
    requires ClosedRefs(g0) && Renumbered(g0, m, hy, start, out)
  {
    && start <= |g0| && start <= |out|
    && (forall i :: 0 <= i < |g0| ==> MeaningOf(Declared(g0), g0, i) == MeaningOf(Declared(g0), out, NewId(g0, m, hy, i)))
    && (forall i :: 0 <= i < start ==> MeaningOf(Declared(g0), g0, i) == MeaningOf(Declared(g0), out, i))
  }

  ghost predicate NoDuplicates(out: seq<Type>, start: nat) {
    forall a, b :: 0 <= a < b < |out| && start <= b && OccursOnce(out[b], a < start) ==> out[a] != out[b]
  }

  lemma FinishedIsRenumbered(g0: seq<Type>, g: seq<Type>, m: seq<nat>, start: nat, out: seq<Type>, hy: seq<nat>, out': seq<Type>)
    requires Finished(g0, g, m, start, out, hy, out')
    ensures Renumbered(g0, m, hy, start, out')
  {
    ClosedOutput(g0, g, m, start, out, hy, out');
    hide GraphPart, LinkPart, WellLinked, ValidGraph, Remapped, ClosedRefs, Root, PlacedAt, NewPlace, IsNewId;
    forall i | 0 <= i < |m| ensures NewId(g0, m, hy, i) < |out'| {
      NewIdInRange(g0, g, m, start, out, hy, i);
    }
    hide Compacted, NewId;
    forall j | start <= j < |out'| ensures IsNewId(g0, m, hy, j) {
      NewIdHit(g0, g, m, start, out, hy, j);
    }
    forall i, j | 0 <= i < j < |m| && Kept(m, start, i) && Kept(m, start, j) ensures hy[i] < hy[j] {
      PlacesIncrease(g, m, start, out, hy, i, j);
    }
  }

  lemma NewIdHit(g0: seq<Type>, g: seq<Type>, m: seq<nat>, start: nat, out: seq<Type>, hy: seq<nat>, j: nat)
    requires WellLinked(g0, m) && Compacted(g, m, start, out, hy) && start <= j < |out|
    ensures IsNewId(g0, m, hy, j)
  {
    hide WellLinked;
    var i := PlacesOnto(g, m, start, out, hy, j);
    PlaceOfBase(g, m, start, out, hy, i);
    RootOfSelf(g0, m, i);
    assert NewId(g0, m, hy, i) == j;
  }

  lemma PlaceOfBase(g: seq<Type>, m: seq<nat>, start: nat, out: seq<Type>, hy: seq<nat>, i: nat)
    requires Compacted(g, m, start, out, hy) && i < |m| && (i < start || m[i] == i) && start <= hy[i]
    ensures m[i] == i
  {
    assert PlacedAt(m, start, hy, i);
  }

  /** Without forward declarations the unfoldings are equal in full. */
  lemma MeaningPreservedInFull(g0: seq<Type>, m: seq<nat>, hy: seq<nat>, start: nat, out: seq<Type>, i: nat, n: nat)
    requires ClosedRefs(g0) && Renumbered(g0, m, hy, start, out) && MeaningPreserved(g0, m, hy, start, out) && NoForwards(g0) && i < |g0|
    ensures FullTree(g0, i, n) == FullTree(out, NewId(g0, m, hy, i), n)
    ensures i < start ==> FullTree(g0, i, n) == FullTree(out, i, n)
  {
    hide MeaningOf, WellLinked, NoForwards, ClosedRefs, Unfold, FullTree;
    var j := NewId(g0, m, hy, i);
    MeaningAt(Declared(g0), g0, i, out, j, n);
    FullUnfold(g0, g0, i, n);
    FullUnfold(g0, out, j, n);
    if i < start {
      MeaningAt(Declared(g0), g0, i, out, i, n);
      FullUnfold(g0, out, i, n);
    }
  }

  lemma FinishedKeepsMeaning(g0: seq<Type>, g: seq<Type>, m: seq<nat>, start: nat, out: seq<Type>, hy: seq<nat>, out': seq<Type>)
    requires Finished(g0, g, m, start, out, hy, out') && ClosedRefs(g0) && Renumbered(g0, m, hy, start, out')
    ensures MeaningPreserved(g0, m, hy, start, out')
  {
    assert start <= |g0| && start <= |out'|;
    hide Finished, ClosedRefs, WellLinked, MeaningOf;
    forall i | 0 <= i < |g0|
      ensures MeaningOf(Declared(g0), g0, i) == MeaningOf(Declared(g0), out', NewId(g0, m, hy, i))
      ensures i < start ==> MeaningOf(Declared(g0), g0, i) == MeaningOf(Declared(g0), out', i)
    {
      DedupKeepsMeaning(g0, g, m, start, out, hy, out', i);
    }
  }

  lemma FinishedHasNoDuplicates(g0: seq<Type>, g: seq<Type>, m: seq<nat>, tbl: multiset<Entry>, start: nat,
                                out: seq<Type>, hy: seq<nat>, out': seq<Type>)
    requires Finished(g0, g, m, start, out, hy, out') && ReprPart(g0, g, m, tbl, start) && 1 <= start
    ensures NoDuplicates(out', start)
  {
    hide Finished, ReprPart, OccursOnce;
    forall a, b | 0 <= a < b < |out'| && start <= b && OccursOnce(out'[b], a < start)
      ensures out'[a] != out'[b]
    {
      OutputDistinct(g0, g, m, tbl, start, out, hy, out', a, b);
    }
  }

  lemma OutputSmaller(g: seq<Type>, m: seq<nat>, start: nat, out: seq<Type>, hy: seq<nat>)
    requires Compacted(g, m, start, out, hy)
    ensures |out| <= |m|
  {
    CountBound(m, start, |m|);
  }

  lemma CompactedRefs(g: seq<Type>, m: seq<nat>, start: nat, out: seq<Type>, hy: seq<nat>, j: nat)
    requires Compacted(g, m, start, out, hy) && ClosedRefs(g) && j < |out|
    ensures forall k :: 0 <= k < |out[j].refs| ==> out[j].refs[k] < |m|
  {
    var i := PlacesOnto(g, m, start, out, hy, j);
  }
}