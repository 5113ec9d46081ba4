/** Exact-duplicate tests used inside the graph equivalence check, and the graph morphisms that the check
    is guaranteed to find. */
module Equiv {
  import opened Numbers
  import opened Btf
  import opened Meaning

  predicate IdenticalArrays(g: seq<Type>, a: nat, b: nat)
    requires a < |g| && b < |g|
  {
    g[a].kind == Array && g[b].kind == Array && EqualArray(g[a], g[b])
  }

  /** Composites nest by value only finitely deep; the ranking witnesses it. */
  ghost predicate NestingRanked(g: seq<Type>, depth: seq<nat>) {
    && |depth| == |g|
    && forall i, k :: 0 <= i < |g| && 0 <= k < |g[i].refs| && NestsIn(g, i, k) ==> depth[g[i].refs[k]] < depth[i]
  }

  /** Member k of composite i is itself a composite. */
  predicate NestsIn(g: seq<Type>, i: nat, k: nat)
    requires i < |g| && k < |g[i].refs|
  {
    g[i].refs[k] < |g| && IsComposite(g[i]) && IsComposite(g[g[i].refs[k]])
  }

  predicate IdenticalStructs(g: seq<Type>, ghost depth: seq<nat>, a: nat, b: nat)
    requires ClosedRefs(g) && NestingRanked(g, depth) && a < |g| && b < |g|
    requires WellFormed(g[a]) && WellFormed(g[b])
    requires forall i :: 0 <= i < |g| ==> WellFormed(g[i])
    decreases depth[a], 1
  {
    && IsComposite(g[a]) && g[a].kind == g[b].kind
    && ShallowEqualStruct(g[a], g[b])
    && forall k :: 0 <= k < |g[a].refs| ==> IdenticalMembers(g, depth, a, b, k)
  }

  predicate IdenticalMembers(g: seq<Type>, ghost depth: seq<nat>, a: nat, b: nat, k: nat)
    requires ClosedRefs(g) && NestingRanked(g, depth) && a < |g| && b < |g|
    requires forall i :: 0 <= i < |g| ==> WellFormed(g[i])
    requires IsComposite(g[a]) && |g[a].refs| == |g[b].refs| && k < |g[a].refs|
    decreases depth[a], 0
  {
    var m1, m2 := g[a].refs[k], g[b].refs[k];
    m1 == m2 || IdenticalArrays(g, m1, m2) || (IsComposite(g[m1]) && IdenticalStructs(g, depth, m1, m2))
  }

  lemma {:induction false} IdenticalStructsUnfold(g: seq<Type>, depth: seq<nat>, a: nat, b: nat, n: nat)
    requires ClosedRefs(g) && NestingRanked(g, depth) && a < |g| && b < |g|
    requires forall i :: 0 <= i < |g| ==> WellFormed(g[i])
    requires IdenticalStructs(g, depth, a, b)
    ensures Unfold(Declared(g), g, a, n) == Unfold(Declared(g), g, b, n)
    decreases n, 1
  {
    if n > 0 {
      IdenticalKids(g, depth, a, b, n - 1);
      assert Label(g[a]) == Label(g[b]) && |g[a].refs| == |g[b].refs|;
      hide SameKids, ClosedRefs, Unfold, Declared, NestingRanked, IdenticalMembers, WellFormed, IdenticalStructs;
      UnfoldStep(Declared(g), g, a, g, b, n - 1);
    }
  }

  lemma {:induction false} IdenticalKids(g: seq<Type>, depth: seq<nat>, a: nat, b: nat, n: nat)
    requires ClosedRefs(g) && NestingRanked(g, depth) && a < |g| && b < |g|
    requires forall i :: 0 <= i < |g| ==> WellFormed(g[i])
    requires IdenticalStructs(g, depth, a, b)
    ensures SameKids(Declared(g), g, a, g, b, n)
    decreases n, 3
  {
    assert |g[a].refs| == |g[b].refs|;
    hide Unfold, Declared, WellFormed, NestingRanked, IdenticalMembers, ShallowEqualStruct;
    forall k | 0 <= k < |g[a].refs|
      ensures Unfold(Declared(g), g, g[a].refs[k], n) == Unfold(Declared(g), g, g[b].refs[k], n)
    {
      IdenticalMembersUnfold(g, depth, a, b, k, n);
    }
  }

  lemma {:induction false} IdenticalMembersUnfold(g: seq<Type>, depth: seq<nat>, a: nat, b: nat, k: nat, n: nat)
    requires ClosedRefs(g) && NestingRanked(g, depth) && a < |g| && b < |g|
    requires forall i :: 0 <= i < |g| ==> WellFormed(g[i])
    requires IsComposite(g[a]) && |g[a].refs| == |g[b].refs| && k < |g[a].refs|
    requires IdenticalMembers(g, depth, a, b, k)
    ensures Unfold(Declared(g), g, g[a].refs[k], n) == Unfold(Declared(g), g, g[b].refs[k], n)
    decreases n, 2
  {
    var m1, m2 := g[a].refs[k], g[b].refs[k];
    if m1 == m2 {
    } else if IdenticalArrays(g, m1, m2) {
      EqualRecordsBisim(g, m1, m2);
      MeaningAt(Declared(g), g, m1, g, m2, n);
    } else {
      IdenticalStructsUnfold(g, depth, m1, m2, n);
    }
  }

  lemma IdenticalBisim(g: seq<Type>, depth: seq<nat>, a: nat, b: nat)
    requires ClosedRefs(g) && NestingRanked(g, depth) && a < |g| && b < |g|
    requires forall i :: 0 <= i < |g| ==> WellFormed(g[i])
    requires IdenticalArrays(g, a, b) || IdenticalStructs(g, depth, a, b)
    ensures Bisim(g, a, b)
  {
    if IdenticalArrays(g, a, b) {
      EqualRecordsBisim(g, a, b);
    } else {
      forall n: nat ensures Unfold(Declared(g), g, a, n) == Unfold(Declared(g), g, b, n) {
        IdenticalStructsUnfold(g, depth, a, b, n);
      }
      MeaningEqual(Declared(g), g, a, g, b);
    }
  }

  // ----- Graph morphisms --------------------------------------------------------------------------

  /** One of two records only declares what the other declares or defines. */
  predicate Declares(a: Type, b: Type) {
    && (IsForward(a) || IsForward(b)) && IsTagged(a) && IsTagged(b) && TagOf(a) == TagOf(b)
    && (IsAnyEnum(a) ==> a.kind == b.kind) && (a.kind == b.kind == Fwd ==> a == b)
  }

  /** f maps part of the graph onto part of the graph, record by record: labels are kept and the k-th
      reference of b, resolved by res, goes to the k-th reference of f[b].  A declaration may go to what it
      declares, or the other way round, whatever they refer to. */
  ghost predicate Morphism(g: seq<Type>, res: seq<nat>, f: map<nat, nat>) {
    forall b :: b in f ==> b < |g| && f[b] < |g| && (Declares(g[f[b]], g[b]) || MorphismAt(g, res, f, b))
  }

  ghost predicate MorphismAt(g: seq<Type>, res: seq<nat>, f: map<nat, nat>, b: nat)
    requires b in f && b < |g| && f[b] < |g|
  {
    && g[b].kind != Fwd && Label(g[f[b]]) == Label(g[b]) && |g[f[b]].refs| == |g[b].refs|
    && forall k :: 0 <= k < |g[b].refs| ==> Goes(res, f, g[b].refs[k], g[f[b]].refs[k])
  }

  predicate Goes(res: seq<nat>, f: map<nat, nat>, b: nat, a: nat) {
    b < |res| && res[b] in f && f[res[b]] == a
  }

  /** The hypothetical map makes no assumption that contradicts f. */
  ghost predicate Agrees(hy: seq<nat>, f: map<nat, nat>) {
    forall b :: b in f && InHypot(hy, b) ==> hy[b] == f[b]
  }

  // ----- What one equivalence check guarantees ----------------------------------------------------

  ghost function FreeIds(hy: seq<nat>): set<nat> {
    set b: nat | 0 <= b < |hy| && !InHypot(hy, b)
  }

  /** Every assumption added between hy0 and hy is justified. */
  ghost predicate NewJustified(g: seq<Type>, hy0: seq<nat>, hy: seq<nat>)
    requires ClosedRefs(g) && HypotInRange(g, hy)
  {
    forall b :: 0 <= b < |hy| && InHypot(hy, b) && !InHypot(hy0, b) ==> Justified(g, hy, b)
  }

  /** Assuming b equivalent to a and then justifying the assumption. */
  lemma NewAssumption(g: seq<Type>, h0: seq<nat>, h1: seq<nat>, h: seq<nat>, a: nat, b: nat)
    requires ClosedRefs(g) && HypotInRange(g, h) && b < |h0| == |h| && !InHypot(h0, b) && h1 == h0[b := a] && Extends(h1, h)
    ensures Extends(h0, h)
    ensures InHypot(h1, b) && NewJustified(g, h1, h) && Justified(g, h, b) ==> NewJustified(g, h0, h)
    ensures InHypot(h1, b) && NewPairKinds(g, h1, h) && a < |g| && PairKinds(g[a], g[b]) ==> NewPairKinds(g, h0, h)
  {
    hide Justified, PairKinds, ClosedRefs;
  }

  lemma NewJustifiedTrans(g: seq<Type>, h0: seq<nat>, h1: seq<nat>, h2: seq<nat>)
    requires ClosedRefs(g) && HypotInRange(g, h1) && HypotInRange(g, h2)
    requires Extends(h1, h2) && NewJustified(g, h0, h1) && NewJustified(g, h1, h2)
    ensures NewJustified(g, h0, h2)
  {
    forall b | 0 <= b < |h2| && InHypot(h2, b) && !InHypot(h0, b) ensures Justified(g, h2, b) {
      if InHypot(h1, b) { JustifiedMonotone(g, h1, h2, b); }
    }
  }

  /** The check gives no negative answer about a pair that some morphism relates. */
  ghost predicate Finds(g: seq<Type>, res: seq<nat>, hy0: seq<nat>, hy: seq<nat>, a: nat, b: nat, eq: int) {
    forall f: map<nat, nat> :: Morphism(g, res, f) && b in f && f[b] == a && Agrees(hy0, f) ==> eq != 0 && Agrees(hy, f)
  }

  /** Kinds that may be paired: equal ones, and a forward declaration with a composite. */
  predicate PairKinds(a: Type, b: Type) {
    || a.kind == b.kind
    || ((a.kind == Fwd || IsComposite(a)) && (b.kind == Fwd || IsComposite(b)))
  }

  ghost predicate NewPairKinds(g: seq<Type>, hy0: seq<nat>, hy: seq<nat>)
    requires HypotInRange(g, hy)
  {
    forall b :: 0 <= b < |hy| && InHypot(hy, b) && !InHypot(hy0, b) ==> PairKinds(g[hy[b]], g[b])
  }

  /** A composite was met where the base has only a declaration of it. */
  ghost predicate DefinesBase(g: seq<Type>, hy: seq<nat>, start: nat)
    requires HypotInRange(g, hy)
  {
    exists b :: 0 <= b < |hy| && b < start && InHypot(hy, b) && DefinesAt(g[hy[b]], g[b])
  }

  predicate DefinesAt(a: Type, b: Type) { b.kind == Fwd && IsComposite(a) && TagOf(a) == TagOf(b) }

  lemma DefinesByTag(a: Type, b: Type)
    ensures DefinesAt(a, b) <==> a.kind != Fwd && b.kind == Fwd && a.name == b.name && FwdKind(b) == a.kind
  {
  }

  lemma DefinesBaseMore(g: seq<Type>, h0: seq<nat>, h1: seq<nat>, start: nat, a: nat, b: nat)
    requires HypotInRange(g, h0) && HypotInRange(g, h1) && b < |h0| && !InHypot(h0, b) && h1 == h0[b := a] && a < |g|
    requires InHypot(h1, b)
    ensures DefinesBase(g, h1, start) <==> DefinesBase(g, h0, start) || (b < start && DefinesAt(g[a], g[b]))
  {
    hide DefinesAt;
    if DefinesBase(g, h0, start) {
      var c :| 0 <= c < |h0| && c < start && InHypot(h0, c) && DefinesAt(g[h0[c]], g[c]);
      assert h1[c] == h0[c];
    }
    if b < start && DefinesAt(g[a], g[b]) { assert h1[b] == a; }
  }

  /** The list names exactly the ids that the hypothetical map covers. */
  ghost predicate ListsHypot(hy: seq<nat>, list: seq<nat>) {
    && (forall b :: 0 <= b < |hy| && InHypot(hy, b) ==> b in list)
    && (forall i :: 0 <= i < |list| ==> list[i] < |hy| && InHypot(hy, list[i]))
  }

  lemma ExtendsAt(h0: seq<nat>, h1: seq<nat>, b: nat)
    requires Extends(h0, h1) && b < |h0| && InHypot(h0, b)
    ensures b < |h1| && InHypot(h1, b) && h1[b] == h0[b]
  {
  }

  lemma FreeShrinks(h0: seq<nat>, h1: seq<nat>)
    requires Extends(h0, h1)
    ensures FreeIds(h1) <= FreeIds(h0)
  {
  }

  lemma FindsStep(g: seq<Type>, res: seq<nat>, h0: seq<nat>, h1: seq<nat>, h2: seq<nat>, a: nat, b: nat, k: nat, eq: int)
    requires a < |g| && b < |g| && k < |g[a].refs| && k < |g[b].refs| && !IsForward(g[a]) && !IsForward(g[b])
    requires g[b].refs[k] < |res| && Finds(g, res, h0, h1, a, b, 1)
    requires Finds(g, res, h1, h2, g[a].refs[k], res[g[b].refs[k]], eq)
    ensures Finds(g, res, h0, h2, a, b, eq)
  {
    forall f: map<nat, nat> | Morphism(g, res, f) && b in f && f[b] == a && Agrees(h0, f)
      ensures eq != 0 && Agrees(h2, f)
    {
      assert Agrees(h1, f);
      assert MorphismAt(g, res, f, b);
      assert Goes(res, f, g[b].refs[k], g[a].refs[k]);
    }
  }

  /** Assuming f's own image of b keeps agreement with f. */
  lemma AssumptionFinds(g: seq<Type>, res: seq<nat>, h0: seq<nat>, h1: seq<nat>, h2: seq<nat>, a: nat, b: nat, eq: int)
    requires |h1| == |h0| && b < |h0| && !InHypot(h0, b) && h1 == h0[b := a]
    requires Finds(g, res, h1, h2, a, b, eq)
    ensures Finds(g, res, h0, h2, a, b, eq)
  {
    forall f: map<nat, nat> | Morphism(g, res, f) && b in f && f[b] == a && Agrees(h0, f)
      ensures eq != 0 && Agrees(h2, f)
    {
      assert Agrees(h1, f);
    }
  }

  // ----- Comparing two records --------------------------------------------------------------------

  datatype Verdict = Differ | Agree | Descend | Invalid

  /** What two records alone decide; Descend leaves the decision to their references. */
  function CompareRecords(cand: Type, canon: Type): Verdict {
    if cand.name != canon.name then Differ
    else if (cand.kind == Fwd || canon.kind == Fwd) && cand.kind != canon.kind then
      if cand.kind == Fwd then (if FwdKind(cand) == canon.kind then Agree else Differ)
      else if FwdKind(canon) == cand.kind then Agree else Differ
    else if cand.kind != canon.kind then Differ
    else match cand.kind
      case Int => if EqualIntTag(cand, canon) then Agree else Differ
      case Enum | Enum64 => if CompatEnum(cand, canon) then Agree else Differ
      case Fwd | Float => if EqualCommon(cand, canon) then Agree else Differ
      case Const | Volatile | Restrict | Ptr | Typedef | Func | TypeTag =>
        if EqualInfo(cand, canon) then Descend else Differ
      case Array => if CompatArray(cand, canon) then Descend else Differ
      case Struct | Union => if ShallowEqualStruct(cand, canon) then Descend else Differ
      case FuncProto => if CompatFuncProto(cand, canon) then Descend else Differ
      case _ => Invalid
  }

  /** A declaration agrees with a definition exactly when they carry the same tag; enums must also be of
      one width. */
  lemma DeclarationMeetsDefinition(a: Type, b: Type)
    ensures a.kind == Fwd && IsComposite(b) ==>
              && (CompareRecords(a, b) == Agree <==> TagOf(a) == TagOf(b))
              && (CompareRecords(b, a) == Agree <==> TagOf(a) == TagOf(b))
    ensures IsEnumFwd(a) && IsAnyEnum(b) ==>
              && (CompareRecords(a, b) == Agree <==> TagOf(a) == TagOf(b) && a.kind == b.kind)
              && (CompareRecords(b, a) == Agree <==> TagOf(a) == TagOf(b) && a.kind == b.kind)
  {
  }

  /** Records are told apart exactly by what they declare and by their labels. */
  lemma CompareRecordsExact(a: Type, b: Type)
    requires WellFormed(a) && WellFormed(b)
    ensures CompareRecords(a, b) != Invalid ==>
              (CompareRecords(a, b) != Differ <==> Declares(a, b) || (b.kind != Fwd && Label(a) == Label(b)))
    ensures CompareRecords(a, b) == Invalid ==> a.kind == b.kind && !IsPrim(a) && !IsComposite(a)
    ensures CompareRecords(a, b) == Agree ==> Declares(a, b) || a.refs == b.refs == []
    ensures CompareRecords(a, b) == Descend ==> !IsForward(a) && !IsForward(b)
    ensures Label(a) == Label(b) ==> |a.refs| == |b.refs|
  {
    assert Label(a) == Label(b) ==> a.names == b.names && a.words == b.words;
    if a.kind == Fwd && b.kind == Fwd { assert |a.refs| == |b.refs| == 1; assert EqualCommon(a, b) ==> a.refs == b.refs && a == b; }
  }

  /** Records found equal without looking at references are seen the same. */
  lemma AgreeIsSeenSame(g: seq<Type>, a: nat, b: nat)
    requires ClosedRefs(g) && a < |g| && b < |g| && WellFormed(g[a]) && WellFormed(g[b])
    requires CompareRecords(g[a], g[b]) == Agree
    ensures SameDeclaration(g, a, b) || (Label(g[a]) == Label(g[b]) && g[a].refs == g[b].refs == [])
  {
    if IsForward(g[a]) {
      ForwardBisim(g, a, b);
    } else if IsForward(g[b]) {
      ForwardBisim(g, b, a);
    } else {
      CompareRecordsExact(g[a], g[b]);
    }
  }

  lemma AgreeIsJustified(g: seq<Type>, hy: seq<nat>, b: nat)
    requires ClosedRefs(g) && HypotInRange(g, hy) && b < |g| && InHypot(hy, b) && WellFormed(g[hy[b]]) && WellFormed(g[b])
    requires CompareRecords(g[hy[b]], g[b]) == Agree
    ensures Justified(g, hy, b)
  {
    AgreeIsSeenSame(g, hy[b], b);
  }

  /** Records whose references decide have the same label. */
  lemma DescendIsLabelEquality(a: Type, b: Type)
    requires WellFormed(a) && WellFormed(b) && CompareRecords(a, b) == Descend
    ensures Label(a) == Label(b) && |a.refs| == |b.refs|
  {
    assert a.names == b.names && a.words == b.words;
  }

  lemma CompareRecordsKinds(a: Type, b: Type)
    requires WellFormed(a) && WellFormed(b)
    ensures CompareRecords(a, b) == Agree || CompareRecords(a, b) == Descend ==> PairKinds(a, b)
    ensures CompareRecords(a, b) == Descend ==> a.kind == b.kind && |a.refs| == |b.refs|
    ensures CompareRecords(a, b) == Descend ==> (a.kind == Array ==> |a.refs| == 2)
  {
  }

  // ----- Comparing references one after another ---------------------------------------------------

  ghost predicate RefsAgree(g: seq<Type>, h0: seq<nat>, h: seq<nat>, a: nat, b: nat, lo: nat, hi: nat)
    requires ClosedRefs(g) && HypotInRange(g, h) && a < |g| && b < |g|
    requires hi <= |g[a].refs| && hi <= |g[b].refs|
  {
    && NewJustified(g, h0, h)
    && forall k :: lo <= k < hi ==> Related(g, h, g[a].refs[k], g[b].refs[k])
  }

  lemma RefsAgreeMonotone(g: seq<Type>, h0: seq<nat>, h1: seq<nat>, h2: seq<nat>, a: nat, b: nat, lo: nat, hi: nat)
    requires ClosedRefs(g) && HypotInRange(g, h1) && HypotInRange(g, h2) && a < |g| && b < |g|
    requires hi <= |g[a].refs| && hi <= |g[b].refs|
    requires Extends(h1, h2) && RefsAgree(g, h0, h1, a, b, lo, hi) && NewJustified(g, h1, h2)
    ensures RefsAgree(g, h0, h2, a, b, lo, hi)
  {
    NewJustifiedTrans(g, h0, h1, h2);
    forall k | lo <= k < hi ensures Related(g, h2, g[a].refs[k], g[b].refs[k]) {
      RelatedMonotone(g, h1, h2, g[a].refs[k], g[b].refs[k]);
    }
  }

  lemma RefsAgreeStep(g: seq<Type>, h0: seq<nat>, h1: seq<nat>, h2: seq<nat>, a: nat, b: nat, lo: nat, k: nat)
    requires ClosedRefs(g) && HypotInRange(g, h1) && HypotInRange(g, h2) && a < |g| && b < |g|
    requires k < |g[a].refs| && k < |g[b].refs|
    requires Extends(h1, h2) && RefsAgree(g, h0, h1, a, b, lo, k) && NewJustified(g, h1, h2)
    requires Related(g, h2, g[a].refs[k], g[b].refs[k])
    ensures RefsAgree(g, h0, h2, a, b, lo, k + 1)
  {
    RefsAgreeMonotone(g, h0, h1, h2, a, b, lo, k);
  }

  lemma JoinRefs(g: seq<Type>, h0: seq<nat>, h1: seq<nat>, h2: seq<nat>, a: nat, b: nat)
    requires ClosedRefs(g) && HypotInRange(g, h1) && HypotInRange(g, h2) && a < |g| && b < |g|
    requires |g[a].refs| == |g[b].refs| == 2
    requires Extends(h1, h2) && RefsAgree(g, h0, h1, a, b, 1, 2) && RefsAgree(g, h1, h2, a, b, 0, 1)
    ensures RefsAgree(g, h0, h2, a, b, 0, 2)
  {
    RefsAgreeMonotone(g, h0, h1, h2, a, b, 1, 2);
  }

  lemma FindsTrans(g: seq<Type>, res: seq<nat>, h0: seq<nat>, h1: seq<nat>, h2: seq<nat>, a: nat, b: nat, eq: int)
    requires Finds(g, res, h0, h1, a, b, 1) && Finds(g, res, h1, h2, a, b, eq)
    ensures Finds(g, res, h0, h2, a, b, eq)
  {
    forall f: map<nat, nat> | Morphism(g, res, f) && b in f && f[b] == a && Agrees(h0, f)
      ensures eq != 0 && Agrees(h2, f)
    {
      assert Agrees(h1, f);
    }
  }

  lemma DifferFinds(g: seq<Type>, res: seq<nat>, h: seq<nat>, a: nat, b: nat)
    requires a < |g| && b < |g| && !Declares(g[a], g[b]) && (g[b].kind == Fwd || Label(g[a]) != Label(g[b]))
    ensures Finds(g, res, h, h, a, b, 0)
  {
  }

  lemma KnownFinds(g: seq<Type>, res: seq<nat>, h: seq<nat>, a: nat, b: nat)
    requires ClosedRefs(g) && HypotInRange(g, h)
    ensures Finds(g, res, h, h, a, b, 1) && Finds(g, res, h, h, a, b, ENOMEM) && Finds(g, res, h, h, a, b, EINVAL)
    ensures NewJustified(g, h, h) && NewPairKinds(g, h, h) && Extends(h, h)
  {
  }

  lemma JustifiedFromRefs(g: seq<Type>, h0: seq<nat>, h: seq<nat>, b: nat)
    requires ClosedRefs(g) && HypotInRange(g, h) && b < |g| && InHypot(h, b)
    requires Label(g[h[b]]) == Label(g[b]) && |g[h[b]].refs| == |g[b].refs|
    requires RefsAgree(g, h0, h, h[b], b, 0, |g[b].refs|)
    ensures Justified(g, h, b)
  {
  }

  // ----- Starting from a cleared map --------------------------------------------------------------

  ghost predicate Cleared(hy: seq<nat>) {
    forall b :: 0 <= b < |hy| ==> !InHypot(hy, b)
  }

  lemma NothingDefined(g: seq<Type>, hy: seq<nat>, start: nat)
    requires HypotInRange(g, hy) && Cleared(hy)
    ensures !DefinesBase(g, hy, start)
  {
  }

  /** The base declares no composite without defining it. */
  ghost predicate BaseDefined(g: seq<Type>, start: nat) {
    forall i :: 0 <= i < start && i < |g| ==> g[i].kind != Fwd
  }

  lemma NoBaseToDefine(g: seq<Type>, hy: seq<nat>, start: nat)
    requires HypotInRange(g, hy) && BaseDefined(g, start)
    ensures !DefinesBase(g, hy, start)
  {
  }

  ghost predicate AllPairKinds(g: seq<Type>, hy: seq<nat>)
    requires HypotInRange(g, hy)
  {
    forall b :: 0 <= b < |hy| && InHypot(hy, b) ==> PairKinds(g[hy[b]], g[b])
  }

  ghost predicate AllBisim(g: seq<Type>, hy: seq<nat>)
    requires ClosedRefs(g) && HypotInRange(g, hy)
  {
    forall b :: 0 <= b < |hy| && InHypot(hy, b) ==> Bisim(g, hy[b], b)
  }

  /** A positive answer is right: the two types, and all pairs met on the way, mean the same. */
  lemma PositiveIsBisim(g: seq<Type>, h0: seq<nat>, h: seq<nat>, a: nat, b: nat)
    requires ClosedRefs(g) && HypotInRange(g, h) && a < |g| && b < |g| && |h0| == |h|
    requires Cleared(h0) && NewJustified(g, h0, h) && Related(g, h, a, b)
    ensures AllBisim(g, h) && Bisim(g, a, b)
  {
    JustifiedIsBisim(g, h);
  }

  /** A negative answer is given only when no morphism takes b to a. */
  lemma NegativeIsNoMorphism(g: seq<Type>, res: seq<nat>, h0: seq<nat>, h: seq<nat>, a: nat, b: nat)
    requires Cleared(h0) && Finds(g, res, h0, h, a, b, 0)
    ensures NoMorphism(g, res, b, a)
  {
    forall f: map<nat, nat> | Morphism(g, res, f) && b in f ensures f[b] != a {
      assert Agrees(h0, f);
    }
  }

  /** No graph morphism sends a to b. */
  ghost predicate NoMorphism(g: seq<Type>, res: seq<nat>, a: nat, b: nat) {
    forall f: map<nat, nat> :: Morphism(g, res, f) && a in f ==> f[a] != b
  }

  // ----- When the check cannot fail ---------------------------------------------------------------

  /** Kinds that type expressions may refer to. */
  predicate Regular(t: Type) { t.kind != Var && t.kind != Datasec && t.kind != DeclTag }

  /** Composites and the reference types between them refer to regular types only. */
  ghost predicate RegularRefs(g: seq<Type>)
    requires ClosedRefs(g)
  {
    forall i, k :: 0 <= i < |g| && 0 <= k < |g[i].refs| && Regular(g[i]) ==> Regular(g[g[i].refs[k]])
  }

  lemma InvalidKinds(a: Type, b: Type)
    ensures CompareRecords(a, b) == Invalid ==> a.kind == b.kind && (a.kind == Void || !Regular(a))
  {
  }

  lemma RegularRecords(a: Type, b: Type)
    requires CompareRecords(a, b) == Descend
    ensures Regular(a) && Regular(b)
  {
  }

  lemma RegularComposites(a: Type, b: Type)
    requires IsComposite(a) && ShallowEqualStruct(a, b)
    ensures Regular(a) && Regular(b)
  {
  }
}
