/** The deduplication state of btf.c and its passes. */
module Dedup {
  import opened Numbers
  import opened Btf
  import opened Meaning
  import opened Links
  import opened Equiv
  import opened HashMaps
  import opened Stages
  import opened Names
  import opened RefStages
  import opened Renumber

  ghost predicate HypotOk(g: seq<Type>, hy: seq<nat>, list: seq<nat>) {
    HypotInRange(g, hy) && ListsHypot(hy, list)
  }

  /** What primitive t may be linked to: an equal record or, for a forward-declared enum, any enum of its name. */
  predicate PrimTarget(t: Type, cand: Type) {
    t == cand || (IsEnumFwd(t) && IsAnyEnum(cand) && t.name == cand.name)
  }

  /** Keys are compared as numbers. */
  ghost predicate KeysAreContents(ops: KeyOps<int>) {
    forall k :: ops.content(k) == k
  }

  class DedupState {
    const start: nat
    const ops: KeyOps<int>
    const table: HashMap
    ghost const orig: seq<Type>
    ghost const depth: seq<nat>
    ghost const height: seq<nat>
    var types: seq<Type>
    var links: seq<nat>
    var hypot: seq<nat>
    var hypotList: seq<nat>
    var adjustCanon: bool

    constructor (g: seq<Type>, startId: nat, forceCollisions: bool,
                 ghost nesting: seq<nat>, ghost refHeight: seq<nat>)
      requires ValidGraph(g) && 1 <= startId <= |g| && BaseClosed(g, startId) && NestingRanked(g, nesting)
      ensures fresh(table)
      ensures orig == g && types == g && start == startId && depth == nesting && height == refHeight
      ensures Fresh()
    {
      start := startId;
      ops := KeyOps(k => k, if forceCollisions then _ => 0 else k => k % TWO64);
      table := new HashMap();
      orig := g;
      depth := nesting;
      height := refHeight;
      types := g;
      links := seq(|g|, i requires 0 <= i < |g| => if i == 0 || IsPinned(g[i]) then i else UNPROCESSED_ID);
      hypot := seq(|g|, _ => UNPROCESSED_ID);
      hypotList := [];
      adjustCanon := false;
    }

    /** The input: nothing here changes during deduplication. */
    ghost predicate ValidInput() {
      1 <= start <= |orig| <= MAX_NR_TYPES && ValidGraph(orig) && ClosedRefs(orig)
      && BaseClosed(orig, start) && NestingRanked(orig, depth)
    }

    /** The state in which graphs are compared: no record has been rewritten yet. */
    ghost predicate Comparable()
      reads this
    {
      && ValidInput() && types == orig && |links| == |hypot| == |orig|
      && LinksOk(orig, links) && HypotOk(orig, hypot, hypotList)
    }

    method ResolveFwd(id: nat) returns (r: nat)
      requires Comparable() && id < |types|
      ensures r < |types|
      ensures r == StandsFor(orig, links, id)
      ensures PairKinds(types[r], types[id]) && Bisim(orig, r, id) && (r == 0 ==> id == 0)
    {
      hide Bisim;
      EqualRecordsBisim(orig, id, id);
      if types[id].kind != Fwd { return id; }
      r := Resolve(orig, links, id);
      RootKinds(orig, links, id);
      RootSound(orig, links, id);
      BisimSymmetric(orig, id, r);
      if types[r].kind == Fwd { r := id; }
    }

    method HypotMapAdd(fromId: nat, toId: nat) returns (err: int)
      requires Comparable() && fromId < |types| && toId < |types| && !InHypot(hypot, fromId)
      modifies this`hypot, this`hypotList
      ensures Comparable() && (err == 0 || err == ENOMEM)
      ensures err == 0 ==> hypot == old(hypot)[fromId := toId] && hypotList == old(hypotList) + [fromId]
      ensures err != 0 ==> hypot == old(hypot) && hypotList == old(hypotList)
    {
      var outOfMemory: bool := *;
      if outOfMemory { return ENOMEM; }
      hypotList := hypotList + [fromId];
      hypot := hypot[fromId := toId];
      return 0;
    }

    method IsEquiv(candId: nat, canonId: nat) returns (eq: int)
      requires Comparable() && candId < |types| && canonId < |types| && (adjustCanon <==> DefinesBase(orig, hypot, start))
      modifies this`hypot, this`hypotList, this`adjustCanon
      ensures Comparable() && Extends(old(hypot), hypot) && old(hypotList) <= hypotList
      ensures eq == 1 ==> NewPairKinds(orig, old(hypot), hypot)
      ensures eq == 1 ==>
                Related(orig, hypot, candId, canonId) && NewJustified(orig, old(hypot), hypot)
      ensures Finds(orig, Resolution(orig, links), old(hypot), hypot, candId, StandsFor(orig, links, canonId), eq)
      ensures adjustCanon <==> DefinesBase(orig, hypot, start)
      ensures eq <= 1
      ensures RegularRefs(orig) && Regular(orig[candId]) && Regular(orig[canonId]) ==> eq >= 0 || eq == ENOMEM
      decreases FreeIds(hypot), 0
    {
      hide LinksOk, WellLinked, LinksSound, ValidGraph, ClosedRefs, NestingRanked, Bisim, Finds, Resolution, StandsFor;
      hide NewJustified, NewPairKinds, Extends, Justified, BaseClosed, PairKinds, DefinesBase;
      LinksOkParts(orig, links);
      ghost var res := Resolution(orig, links);
      KnownFinds(orig, res, hypot, candId, StandsFor(orig, links, canonId));
      var r1 := Resolve(orig, links, candId);
      var r2 := Resolve(orig, links, canonId);
      if r1 == r2 {
        SameRootBisim(orig, links, candId, canonId);
        return 1;
      }
      var canon := ResolveFwd(canonId);
      if InHypot(hypot, canon) {
        eq := CheckAssumed(candId, canon);
        if eq == 1 { RelatedAlong(orig, hypot, candId, canon, canonId); }
        return;
      }
      ghost var h0 := hypot;
      eq := HypotMapAdd(canon, candId);
      if eq != 0 { return; }
      ghost var h1 := hypot;
      assert FreeIds(h1) < FreeIds(h0) by { assert canon in FreeIds(h0); }
      eq := Compare(candId, canon, h0);
      NewAssumption(orig, h0, h1, hypot, candId, canon);
      if eq == 1 {
        ExtendsAt(h1, hypot, canon);
        AssumedIsRelated(orig, hypot, candId, canon);
        RelatedAlong(orig, hypot, candId, canon, canonId);
      }
      AssumptionFinds(orig, res, h0, h1, hypot, candId, canon, eq);
    }

    /** canon is already assumed equivalent to some type: candId must be that type or an exact copy. */
    method CheckAssumed(candId: nat, canon: nat) returns (eq: int)
      requires Comparable() && candId < |types| && canon < |types| && InHypot(hypot, canon)
      ensures eq == 0 || eq == 1
      ensures eq == 1 ==> Related(orig, hypot, candId, canon)
      ensures Finds(orig, Resolution(orig, links), hypot, hypot, candId, canon, eq)
    {
      var h := hypot[canon];
      if h == candId {
        AssumedIsRelated(orig, hypot, candId, canon);
        return 1;
      }
      if IdenticalArrays(types, h, candId) || IdenticalStructs(types, depth, h, candId) {
        IdenticalBisim(types, depth, h, candId);
        AssumedAlong(orig, hypot, candId, canon);
        return 1;
      }
      return 0;
    }

    /** Compares two records whose equivalence has just been assumed. */
    method Compare(candId: nat, canon: nat, ghost h0: seq<nat>) returns (eq: int)
      requires Comparable() && candId < |types| && canon < |types|
      requires InHypot(hypot, canon) && hypot[canon] == candId && HypotInRange(orig, h0) && !InHypot(h0, canon)
      requires hypot == h0[canon := candId] && (adjustCanon <==> DefinesBase(orig, h0, start))
      modifies this`hypot, this`hypotList, this`adjustCanon
      ensures Comparable() && Extends(old(hypot), hypot) && old(hypotList) <= hypotList
      ensures eq == 1 ==> PairKinds(orig[candId], orig[canon]) && NewPairKinds(orig, old(hypot), hypot)
      ensures eq == 1 ==>
                Justified(orig, hypot, canon) && NewJustified(orig, old(hypot), hypot)
      ensures Finds(orig, Resolution(orig, links), old(hypot), hypot, candId, canon, eq)
      ensures adjustCanon <==> DefinesBase(orig, hypot, start)
      ensures eq <= 1
      ensures RegularRefs(orig) && Regular(orig[candId]) && !(candId == canon == 0) ==> eq >= 0 || eq == ENOMEM
      decreases FreeIds(hypot), 3
    {
      hide Finds, Resolution, DefinesBase, LinksOk, ValidGraph, NestingRanked, WellLinked, LinksSound, WellFormed, Declares;
      hide CompareRecords, DefinesAt, Justified, NewJustified, NewPairKinds, PairKinds, Extends, Regular, RegularRefs, Label;
      WellFormedAt(orig, candId);
      WellFormedAt(orig, canon);
      LinksOkParts(orig, links);
      DefinesBaseMore(orig, h0, hypot, start, candId, canon);
      KnownFinds(orig, Resolution(orig, links), hypot, candId, canon);
      var cand, can := types[candId], types[canon];
      DefinesByTag(cand, can);
      if cand.kind != Fwd && can.kind == Fwd && cand.name == can.name && FwdKind(can) == cand.kind && canon < start {
        adjustCanon := true;
      }
      CompareRecordsKinds(cand, can);
      InvalidKinds(cand, can);
      CompareRecordsExact(cand, can);
      match CompareRecords(cand, can)
      case Differ =>
        DifferFinds(orig, Resolution(orig, links), hypot, candId, canon);
        return 0;
      case Agree =>
        AgreeIsJustified(orig, hypot, canon);
        return 1;
      case Invalid => return EINVAL;
      case Descend =>
        RegularRecords(cand, can);
        DescendIsLabelEquality(cand, can);
        eq := CompareRefs(candId, canon);
        ExtendsAt(old(hypot), hypot, canon);
        if eq == 1 { JustifiedFromRefs(orig, old(hypot), hypot, canon); }
    }

    /** Compares all references of two records with the same label; arrays start with the index type. */
    method CompareRefs(candId: nat, canon: nat) returns (eq: int)
      requires Comparable() && candId < |types| && canon < |types|
      requires |types[candId].refs| == |types[canon].refs|
      requires types[candId].kind == Array ==> |types[candId].refs| == 2
      requires !IsForward(types[candId]) && !IsForward(types[canon]) && (adjustCanon <==> DefinesBase(orig, hypot, start))
      modifies this`hypot, this`hypotList, this`adjustCanon
      ensures Comparable() && Extends(old(hypot), hypot) && old(hypotList) <= hypotList
      ensures eq == 1 ==> NewPairKinds(orig, old(hypot), hypot)
      ensures eq == 1 ==>
                RefsAgree(orig, old(hypot), hypot, candId, canon, 0, |types[candId].refs|)
      ensures Finds(orig, Resolution(orig, links), old(hypot), hypot, candId, canon, eq)
      ensures adjustCanon <==> DefinesBase(orig, hypot, start)
      ensures eq <= 1
      ensures RegularRefs(orig) && Regular(orig[candId]) && Regular(orig[canon]) ==> eq >= 0 || eq == ENOMEM
      decreases FreeIds(hypot), 2
    {
      if types[candId].kind != Array {
        eq := EquivRefs(candId, canon, 0, |types[candId].refs|);
        return;
      }
      eq := EquivRefs(candId, canon, 1, 2);
      if eq <= 0 { return; }
      ghost var h1 := hypot;
      FreeShrinks(old(hypot), h1);
      eq := EquivRefs(candId, canon, 0, 1);
      FindsTrans(orig, Resolution(orig, links), old(hypot), h1, hypot, candId, canon, eq);
      if eq == 1 { JoinRefs(orig, old(hypot), h1, hypot, candId, canon); }
    }

    /** Compares references lo..hi of two records pairwise, stopping at the first mismatch. */
    method EquivRefs(candId: nat, canon: nat, lo: nat, hi: nat) returns (eq: int)
      requires Comparable() && candId < |types| && canon < |types| && lo <= hi
      requires hi <= |types[candId].refs| && hi <= |types[canon].refs|
      requires !IsForward(types[candId]) && !IsForward(types[canon]) && (adjustCanon <==> DefinesBase(orig, hypot, start))
      modifies this`hypot, this`hypotList, this`adjustCanon
      ensures Comparable() && Extends(old(hypot), hypot) && old(hypotList) <= hypotList
      ensures eq == 1 ==> NewPairKinds(orig, old(hypot), hypot)
      ensures eq == 1 ==> RefsAgree(orig, old(hypot), hypot, candId, canon, lo, hi)
      ensures Finds(orig, Resolution(orig, links), old(hypot), hypot, candId, canon, eq)
      ensures adjustCanon <==> DefinesBase(orig, hypot, start)
      ensures eq <= 1
      ensures RegularRefs(orig) && Regular(orig[candId]) && Regular(orig[canon]) ==> eq >= 0 || eq == ENOMEM
      decreases FreeIds(hypot), 1
    {
      ghost var h0 := hypot;
      var k := lo;
      while k < hi
        invariant lo <= k <= hi
        invariant Comparable() && Extends(h0, hypot) && old(hypotList) <= hypotList
        invariant NewPairKinds(orig, h0, hypot)
        invariant RefsAgree(orig, h0, hypot, candId, canon, lo, k)
        invariant Finds(orig, Resolution(orig, links), h0, hypot, candId, canon, 1)
        invariant adjustCanon <==> DefinesBase(orig, hypot, start)
      {
        ghost var h1 := hypot;
        FreeShrinks(h0, h1);
        eq := IsEquiv(types[candId].refs[k], types[canon].refs[k]);
        FindsStep(orig, Resolution(orig, links), h0, h1, hypot, candId, canon, k, eq);
        if eq <= 0 { return; }
        RefsAgreeStep(orig, h0, h1, hypot, candId, canon, lo, k);
        k := k + 1;
      }
      return 1;
    }

    // ----- The candidate table --------------------------------------------------------------------

    ghost predicate TableOk()
      reads this, table
    {
      KeysAreContents(ops) && table.Valid(ops) && |links| == |orig|
    }

    /** The candidates filed under hash h. */
    method Candidates(h: int) returns (ids: seq<nat>)
      requires TableOk() && TableInRange(table.Contents(), |orig|)
      ensures forall j :: 0 <= j < |ids| ==> ids[j] < |orig|
      ensures forall i: nat :: i in ids <==> Entry(h, i) in table.Contents()
    {
      var es := table.KeyEntries(ops, h);
      MatchingMembers(Flat(table.buckets), ops, h);
      ids := seq(|es|, k requires 0 <= k < |es| && es[k].value >= 0 => es[k].value);
      forall i: nat ensures i in ids <==> Entry(h, i) in table.Contents() {
        if i in ids {
          var k :| 0 <= k < |ids| && ids[k] == i;
          assert es[k] == Entry(h, i);
        }
        if Entry(h, i) in table.Contents() {
          assert Entry(h, i) in es;
          var k :| 0 <= k < |es| && es[k] == Entry(h, i);
          assert ids[k] == i;
        }
      }
    }

    method TableAdd(h: int, id: nat) returns (err: int)
      requires TableOk()
      modifies table
      ensures TableOk()
      ensures err == 0 || err == ENOMEM
      ensures err == 0 ==> table.Contents() == old(table.Contents()) + multiset{Entry(h, id)}
    {
      var k, v;
      var mem: Memory := *;
      err, k, v := table.Insert(ops, h, id, Append, mem);
    }

    // ----- Preparation: base types ----------------------------------------------------------------

    method MakeRepresentative(id: nat)
      requires Comparable() && id < |orig| && (!IsMapped(links, id) || links[id] == id)
      modifies this`links
      ensures Comparable() && links == old(links)[id := id]
    {
      SelfLink(orig, links, id);
      links := links[id := id];
    }

    method PrepType(id: nat) returns (err: int)
      requires Comparable() && TableOk() && 1 <= id < |orig| && BaseStage(orig, links, table.Contents(), id)
      modifies this`links, table
      ensures Comparable() && TableOk() && (err == 0 || err == ENOMEM)
      ensures err == 0 ==> BaseStage(orig, links, table.Contents(), id + 1)
    {
      hide HashOf, LinksOk, HypotOk, ValidGraph, NestingRanked;
      ghost var m0, tbl0 := links, table.Contents();
      MakeRepresentative(id);
      if !IsPinned(types[id]) {
        err := TableAdd(HashOf(types[id]), id);
        if err != 0 { return; }
      }
      BaseStep(orig, m0, tbl0, table.Contents(), id);
      return 0;
    }

    method Prep() returns (err: int)
      requires Comparable() && TableOk()
      requires BaseStage(orig, links, table.Contents(), 1)
      modifies this`links, table
      ensures Comparable() && TableOk() && (err == 0 || err == ENOMEM)
      ensures err == 0 ==> PrimStage(start)
    {
      hide BaseStage, Stage, LinksOk, HypotOk, NestingRanked;
      var id := 1;
      while id < start
        invariant 1 <= id <= start
        invariant Comparable() && TableOk() && BaseStage(orig, links, table.Contents(), id)
      {
        err := PrepType(id);
        if err != 0 { return; }
        id := id + 1;
      }
      BaseStageDone(orig, links, table.Contents(), start);
      return 0;
    }

    /** Links a type outside the reference kinds, to itself or down the ranking. */
    method WriteLink(x: nat, y: nat)
      requires Comparable() && x < |orig| && y < |orig| && !IsRef(orig[x])
      requires x == y || (LinkKinds(orig[x], orig[y]) && Rank(orig, y) < Rank(orig, x))
      requires Bisim(orig, x, y)
      modifies this`links
      ensures Comparable() && links == old(links)[x := y]
    {
      hide LinksOk, HypotOk, NestingRanked, ValidGraph;
      LinksOkWrite(orig, links, x, y);
      links := links[x := y];
    }

    // ----- Primitive types ------------------------------------------------------------------------

    /** The state during the primitive pass. */
    ghost predicate PrimStage(p: nat)
      reads this, table
    {
      && Comparable() && TableOk()
      && Stage(orig, links, table.Contents(), start, p, start)
    }

    /** Compares primitive id with candidate c.  A full enum that meets a forward declaration of its name
        redirects it to itself. */
    method TryPrim(id: nat, c: nat) returns (hit: bool)
      requires Comparable() && id < |orig| && c < |orig| && IsPrim(orig[id]) && (IsPrim(orig[c]) ==> c < id)
      modifies this`links
      ensures Comparable()
      ensures hit <==> PrimTarget(orig[id], orig[c])
      ensures hit ==> links == old(links) && c < id
      ensures !hit && DeclaredEnum(orig[id], orig[c]) ==> IsEnumFwd(orig[c]) && links == old(links)[c := id]
      ensures !hit && !DeclaredEnum(orig[id], orig[c]) ==> links == old(links)
    {
      hide LinksOk, HypotOk, NestingRanked, ValidGraph, ClosedRefs, Bisim, WellFormed, SameDeclaration, EqualByKind, CompatEnum;
      var t, cand := types[id], types[c];
      WellFormedAt(orig, id);
      WellFormedAt(orig, c);
      EqualByKindIsEquality(t, cand);
      if EqualByKind(t, cand) { return true; }
      if IsAnyEnum(t) { CompatibleEnums(t, cand); }
      if IsAnyEnum(t) && CompatEnum(t, cand) {
        if IsEnumFwd(t) { return true; }
        ForwardBisim(orig, c, id);
        WriteLink(c, id);
      }
      return false;
    }

    /** The first candidate that primitive id can be linked to, or id itself. */
    method FindPrim(id: nat) returns (newId: nat)
      requires Comparable() && TableOk() && id < |orig| && IsPrim(orig[id])
      requires TableSound(orig, links, table.Contents()) && TablePrimsBelow(orig, table.Contents(), id)
      modifies this`links
      ensures Comparable() && newId < |orig|
      ensures Redirected(orig, old(links), links, id)
      ensures newId == id || (newId < id && PrimTarget(orig[id], orig[newId]))
      ensures newId == id ==> forall i :: 0 <= i < id && Listed(orig, table.Contents(), i) && links[i] == i ==> Apart(orig[i], orig[id])
    {
      hide HashOf, LinksOk, HypotOk, ValidGraph, NestingRanked;
      hide HashMap.Valid, HashMap.Contents, KeysAreContents, ClosedRefs;
      SoundInRange(orig, links, table.Contents());
      var ids := Candidates(HashOf(types[id]));
      newId := id;
      var k := 0;
      while k < |ids|
        invariant 0 <= k <= |ids| && Comparable()
        invariant Redirected(orig, old(links), links, id)
        invariant forall j :: 0 <= j < k ==> orig[ids[j]] != orig[id] && (DeclaredEnum(orig[id], orig[ids[j]]) ==> links[ids[j]] == id)
      {
        assert Entry(HashOf(types[id]), ids[k]) in table.Contents();
        var hit := TryPrim(id, ids[k]);
        if hit { return ids[k]; }
        k := k + 1;
      }
      forall i | 0 <= i < id && Listed(orig, table.Contents(), i) && links[i] == i ensures Apart(orig[i], orig[id]) {
        if DeclaredEnum(orig[i], orig[id]) { EnumsShareHash(orig[i], orig[id]); }
        assert HashOf(orig[i]) == HashOf(orig[id]) ==> i in ids;
      }
    }

    method DedupPrimType(id: nat) returns (err: int)
      requires PrimStage(id) && start <= id < |orig|
      modifies this`links, table
      ensures Comparable() && TableOk() && (err == 0 || err == ENOMEM)
      ensures err == 0 ==> PrimStage(id + 1)
    {
      hide Stage, HashOf, LinksOk, HypotOk, ValidGraph, NestingRanked, TableSound, TablePrimsBelow;
      hide HashMap.Valid, HashMap.Contents, KeysAreContents, ClosedRefs, Listed;
      if !IsPrim(types[id]) {
        PrimSkip(orig, links, table.Contents(), start, id);
        return 0;
      }
      ghost var m0, tbl0 := links, table.Contents();
      StageTable(orig, links, table.Contents(), start, id, start);
      var newId := FindPrim(id);
      LinkPrim(id, newId);
      if newId == id {
        err := TableAdd(HashOf(types[id]), id);
        if err != 0 { return; }
      }
      PrimStep(orig, m0, links, tbl0, table.Contents(), start, id, newId);
      return 0;
    }

    method LinkPrim(id: nat, newId: nat)
      requires Comparable() && id < |orig| && IsPrim(orig[id])
      requires newId == id || (newId < id && PrimTarget(orig[id], orig[newId]))
      modifies this`links
      ensures Comparable() && links == old(links)[id := newId]
    {
      hide LinksOk, HypotOk, NestingRanked, ClosedRefs, WellFormed, Bisim, SameDeclaration, ValidGraph;
      if orig[id] == orig[newId] { EqualRecordsBisim(orig, id, newId); } else { ForwardBisim(orig, id, newId); }
      WriteLink(id, newId);
    }

    method DedupPrimTypes() returns (err: int)
      requires PrimStage(start)
      modifies this`links, table
      ensures Comparable() && TableOk() && (err == 0 || err == ENOMEM)
      ensures err == 0 ==> PrimStage(|orig|)
    {
      hide Stage, LinksOk, HypotOk, ValidGraph, NestingRanked;
      var id := start;
      while id < |types|
        invariant start <= id <= |orig| && PrimStage(id)
      {
        err := DedupPrimType(id);
        if err != 0 { return; }
        id := id + 1;
      }
      return 0;
    }

    // ----- Composite types ------------------------------------------------------------------------

    method ClearHypotMap()
      requires Comparable()
      modifies this`hypot, this`hypotList, this`adjustCanon
      ensures Comparable() && hypotList == [] && !adjustCanon
      ensures Cleared(hypot)
    {
      hide LinksOk, ValidGraph, NestingRanked;
      var hy: seq<nat> := hypot;
      var i := 0;
      while i < |hypotList|
        invariant 0 <= i <= |hypotList| && |hy| == |hypot|
        invariant forall b :: 0 <= b < |hy| && InHypot(hy, b) ==> b in hypotList[i..]
      {
        var b := hypotList[i];
        ghost var before := hy;
        hy := hy[b := UNPROCESSED_ID];
        forall b' | 0 <= b' < |hy| && InHypot(hy, b') ensures b' in hypotList[i + 1..] {
          assert InHypot(before, b') && hypotList[i..] == [b] + hypotList[i + 1..];
        }
        i := i + 1;
      }
      hypot, hypotList, adjustCanon := hy, [], false;
    }

    /** Records what one pair of the hypothetical map says about representatives. */
    method MergePair(b: nat, ghost p: nat)
      requires Comparable() && b < |orig| && InHypot(hypot, b) && hypot[b] < |orig| && MergeReady(orig, links, p)
      requires PairKinds(orig[hypot[b]], orig[b])
      requires Bisim(orig, hypot[b], b)
      modifies this`links
      ensures Comparable() && MergedLinks(orig, old(links), links, p)
      ensures old(Merges(orig, links, hypot[b], b, adjustCanon)) ==> Root(orig, links, hypot[b]) == Root(orig, links, b)
      ensures !old(Merges(orig, links, hypot[b], b, adjustCanon)) ==> links == old(links)
      ensures StaysResolved(orig, old(links), links) && PairResolved(orig, links, hypot[b], b, adjustCanon)
    {
      hide LinksOk, WellLinked, LinksSound, HypotOk, ValidGraph, NestingRanked, MergeReady, PairKinds, LinkKinds, Rank;
      hide ClosedRefs, Bisim, StaysResolved, PairResolved;
      LinksOkParts(orig, links);
      ghost var m0 := links;
      var t := hypot[b];
      var tId := Resolve(orig, links, t);
      var cId := Resolve(orig, links, b);
      MergeTargets(orig, links, p, t, b);
      RootsBisim(orig, links, t, b);
      if !Merges(orig, links, t, b, adjustCanon) { UnmergedPair(orig, links, t, b, adjustCanon); }
      if types[tId].kind != Fwd && types[cId].kind == Fwd {
        Join(cId, tId, t, b, m0);
      }
      if adjustCanon { return; }
      if types[tId].kind == Fwd && types[cId].kind != Fwd {
        Join(tId, cId, t, b, m0);
      }
      if IsComposite(types[tId]) && types[cId].kind != Fwd && IsMapped(links, cId) && !IsMapped(links, tId) {
        Join(tId, cId, t, b, m0);
      }
    }

    /** Links x to y, which end the chains of t and b. */
    method Join(x: nat, y: nat, ghost t: nat, ghost b: nat, ghost m0: seq<nat>)
      requires Comparable() && x < |orig| && y < |orig| && !IsRef(orig[x]) && t < |orig| && b < |orig| && x != y
      requires LinkKinds(orig[x], orig[y]) && Rank(orig, y) < Rank(orig, x) && orig[y].kind != Fwd
      requires Bisim(orig, x, y) && WellLinked(orig, links) && links == m0 && Merges(orig, links, t, b, adjustCanon)
      requires (x == Root(orig, m0, t) && y == Root(orig, m0, b)) || (x == Root(orig, m0, b) && y == Root(orig, m0, t))
      modifies this`links
      ensures Comparable() && links == old(links)[x := y] && WellLinked(orig, links)
      ensures Root(orig, links, t) == Root(orig, links, b) && StaysResolved(orig, m0, links) && PairResolved(orig, links, t, b, adjustCanon)
    {
      hide LinksOk, WellLinked, LinksSound, HypotOk, ValidGraph, NestingRanked, LinkKinds, Rank, ClosedRefs, Bisim, StaysResolved, PairResolved;
      WriteLink(x, y);
      LinksOkParts(orig, links);
      MergedPair(orig, m0, links, t, b, adjustCanon, x, y);
    }

    /** Records what the whole hypothetical map says about representatives. */
    method MergeHypotMap(ghost p: nat)
      requires Comparable() && MergeReady(orig, links, p) && AllPairKinds(orig, hypot)
      requires AllBisim(orig, hypot)
      modifies this`links
      ensures Comparable() && MergedLinks(orig, old(links), links, p) && StaysResolved(orig, old(links), links)
      ensures forall b :: 0 <= b < |orig| && InHypot(hypot, b) ==> PairResolved(orig, links, hypot[b], b, adjustCanon)
    {
      hide LinksOk, ValidGraph, NestingRanked, MergeReady, MergedLinks, PairKinds, Bisim, StaysResolved, PairResolved, WellLinked, PairsResolved;
      LinksOkParts(orig, links);
      MergedRefl(orig, links, p);
      StaysResolvedTrans(orig, links, links, links);
      NonePaired(orig, links, hypot, hypotList, adjustCanon);
      var i := 0;
      while i < |hypotList|
        invariant 0 <= i <= |hypotList| && Comparable() && MergeReady(orig, links, p) && WellLinked(orig, links)
        invariant MergedLinks(orig, old(links), links, p) && StaysResolved(orig, old(links), links)
        invariant PairsResolved(orig, links, hypot, hypotList, i, adjustCanon)
      {
        ghost var m1 := links;
        MergePair(hypotList[i], p);
        LinksOkParts(orig, links);
        MergeKeepsReady(orig, m1, links, p);
        MergedTrans(orig, old(links), m1, links, p);
        StaysResolvedTrans(orig, old(links), m1, links);
        PairsResolvedMore(orig, m1, links, hypot, hypotList, i, adjustCanon);
        i := i + 1;
      }
      EveryPair(orig, links, hypot, hypotList, adjustCanon);
    }

    /** Tries to map composite id to representative c.  Returns 1 when c represents id, 0 when it does not
        and a negative error code otherwise. */
    method TryComposite(id: nat, c: nat) returns (res: int)
      requires Comparable() && id < |orig| && c < |orig| && MergeReady(orig, links, id)
      modifies this`links, this`hypot, this`hypotList, this`adjustCanon
      ensures Comparable() && MergedLinks(orig, old(links), links, id)
      ensures res <= 1 && (RegularRefs(orig) && Regular(orig[id]) && Regular(orig[c]) ==> res >= 0 || res == ENOMEM)
      ensures res == 1 ==> Bisim(orig, id, c)
      ensures res == 1 ==> !DefinesBase(orig, hypot, start)
      ensures res == 1 ==> forall b :: 0 <= b < |orig| && InHypot(hypot, b) ==> PairResolved(orig, links, hypot[b], b, false)
      ensures res == 0 ==> || DefinesBase(orig, hypot, start)
                           || (links == old(links) && NoMorphism(orig, Resolution(orig, links), StandsFor(orig, links, c), id))
    {
      hide PairResolved, StaysResolved;
      hide LinksOk, ValidGraph, NestingRanked, MergeReady, MergedLinks, PairKinds, Bisim, NoMorphism, Finds, Resolution;
      hide DefinesBase, StandsFor, WellLinked;
      LinksOkParts(orig, links);
      MergedRefl(orig, links, id);
      ClearHypotMap();
      NothingDefined(orig, hypot, start);
      ghost var h0 := hypot;
      res := IsEquiv(id, c);
      if res <= 0 {
        if res == 0 { NegativeIsNoMorphism(orig, Resolution(orig, links), h0, hypot, id, StandsFor(orig, links, c)); }
        return;
      }
      PositiveIsBisim(orig, h0, hypot, id, c);
      MergeHypotMap(id);
      if adjustCanon { res := 0; }
    }

    /** The state during the composite pass. */
    ghost predicate CompositeStage(p: nat)
      reads this, table
    {
      Comparable() && TableOk() && Stage(orig, links, table.Contents(), start, |orig|, p)
    }

    /** TryComposite, seen as a step of the composite pass. */
    method TryListed(id: nat, c: nat) returns (res: int)
      requires CompositeStage(id) && start <= id < |orig| && c < |orig|
      modifies this`links, this`hypot, this`hypotList, this`adjustCanon
      ensures CompositeStage(id) && res <= 1 && (RegularRefs(orig) && Regular(orig[id]) && Regular(orig[c]) ==> res >= 0 || res == ENOMEM)
      ensures res == 1 ==> Bisim(orig, id, c)
      ensures res == 1 ==> !DefinesBase(orig, hypot, start)
      ensures res == 0 ==> || DefinesBase(orig, hypot, start)
                           || (links == old(links) && NoMorphism(orig, Resolution(orig, links), StandsFor(orig, links, c), id))
    {
      hide LinksOk, HypotOk, ValidGraph, NestingRanked, Stage, NoMorphism, Bisim, MergeReady, MergedLinks, DefinesBase, Resolution;
      StageReady(orig, links, table.Contents(), start, id);
      ghost var m0 := links;
      res := TryComposite(id, c);
      MergeKeepsStage(orig, m0, links, table.Contents(), start, id);
    }

    /** TryListed for a candidate that may not even look like id. */
    method TryCandidate(id: nat, c: nat, ghost tried: seq<nat>, ghost k: nat) returns (res: int)
      requires CompositeStage(id) && start <= id < |orig| && IsComposite(orig[id]) && k < |tried| && c == tried[k] < |orig|
      requires Entry(HashOf(orig[id]), c) in table.Contents()
      modifies this`links, this`hypot, this`hypotList, this`adjustCanon
      ensures CompositeStage(id) && res <= 1 && (RegularRefs(orig) ==> res >= 0 || res == ENOMEM)
      ensures res == 1 ==> Bisim(orig, id, c) && IsComposite(orig[c]) && links[c] == c
      ensures res == 0 && BaseDefined(orig, start) ==> links == old(links)
      ensures res == 0 && BaseDefined(orig, start) && TriedInVain(orig, Resolution(orig, links), tried, k, id) ==>
                TriedInVain(orig, Resolution(orig, links), tried, k + 1, id)
    {
      hide HashOf, LinksOk, ListsHypot, ValidGraph, NestingRanked, Stage, NoMorphism, Bisim, DefinesBase, BaseDefined, Resolution, WellLinked;
      hide ShallowEqualStruct, HashMap.Valid, HashMap.Contents, KeysAreContents, ClosedRefs, RegularRefs, Regular;
      LinksOkParts(orig, links);
      if !ShallowEqualStruct(types[id], types[c]) { return 0; }
      RegularComposites(types[id], types[c]);
      res := TryListed(id, c);
      if BaseDefined(orig, start) { NoBaseToDefine(orig, hypot, start); }
      StageTable(orig, links, table.Contents(), start, |orig|, id);
      RepresentativeStruct(orig, links, table.Contents(), HashOf(types[id]), id, c);
    }

    /** The first listed composite that represents id, or id itself. */
    method FindComposite(id: nat) returns (err: int, newId: nat)
      requires CompositeStage(id) && start <= id < |orig| && IsComposite(orig[id])
      modifies this`links, this`hypot, this`hypotList, this`adjustCanon
      ensures CompositeStage(id) && err <= 0 && newId < |orig| && (RegularRefs(orig) ==> err == 0 || err == ENOMEM)
      ensures err == 0 ==> newId == id || (IsComposite(orig[newId]) && links[newId] == newId)
      ensures err == 0 ==> Bisim(orig, id, newId)
      ensures err == 0 && BaseDefined(orig, start) && newId == id ==> links == old(links) && UnmatchedBelow(orig, links, id)
    {
      hide HashOf, LinksOk, HypotOk, ValidGraph, NestingRanked, Stage, TriedInVain, Bisim, TableSound, BaseDefined, Resolution, WellLinked;
      hide HashMap.Valid, HashMap.Contents, KeysAreContents, UnmatchedBelow, ClosedRefs, RegularRefs;
      LinksOkParts(orig, links);
      StageTable(orig, links, table.Contents(), start, |orig|, id);
      SoundInRange(orig, links, table.Contents());
      var ids := Candidates(HashOf(types[id]));
      NoneTried(orig, Resolution(orig, links), ids, id);
      newId := id;
      var k := 0;
      while k < |ids|
        invariant 0 <= k <= |ids| && CompositeStage(id) && WellLinked(orig, links)
        invariant BaseDefined(orig, start) ==> links == old(links) && TriedInVain(orig, Resolution(orig, links), ids, k, id)
      {
        err := TryCandidate(id, ids[k], ids, k);
        LinksOkParts(orig, links);
        if err < 0 { return; }
        if err == 1 {
          StageOpen(orig, links, table.Contents(), start, id);
          return 0, ids[k];
        }
        k := k + 1;
      }
      err := 0;
      EqualRecordsBisim(orig, id, id);
      if BaseDefined(orig, start) { AllTried(orig, links, table.Contents(), start, id, ids); }
    }

    method DedupStructType(id: nat) returns (err: int)
      requires CompositeStage(id) && start <= id < |orig|
      modifies this`links, this`hypot, this`hypotList, this`adjustCanon, table
      ensures Comparable() && TableOk() && (RegularRefs(orig) ==> err == 0 || err == ENOMEM)
      ensures err == 0 ==> CompositeStage(id + 1)
    {
      hide HashOf, LinksOk, HypotOk, ValidGraph, NestingRanked, Stage, NoMorphism, Bisim, UnmatchedBelow, WellLinked, LinksSound;
      hide BaseDefined, Resolution, RegularRefs, ClosedRefs;
      if IsMapped(links, id) || !IsComposite(types[id]) {
        CompositeSkip(orig, links, table.Contents(), start, id);
        return 0;
      }
      var newId;
      err, newId := FindComposite(id);
      if err < 0 { return; }
      LinksOkParts(orig, links);
      ghost var m0, tbl0 := links, table.Contents();
      StageBelow(orig, links, table.Contents(), start, id, newId);
      WriteLink(id, newId);
      if newId == id {
        err := TableAdd(HashOf(types[id]), id);
        if err != 0 { return; }
      }
      CompositeStep(orig, m0, tbl0, table.Contents(), start, id, newId);
    }

    method DedupStructTypes() returns (err: int)
      requires CompositeStage(start)
      modifies this`links, this`hypot, this`hypotList, this`adjustCanon, table
      ensures Comparable() && TableOk() && (RegularRefs(orig) ==> err == 0 || err == ENOMEM)
      ensures err == 0 ==> CompositeStage(|orig|)
    {
      hide Stage, LinksOk, HypotOk, ValidGraph, NestingRanked;
      var id := start;
      while id < |types|
        invariant start <= id <= |orig| && CompositeStage(id)
      {
        err := DedupStructType(id);
        if err != 0 { return; }
        id := id + 1;
      }
      return 0;
    }

    // ----- Forward declarations -------------------------------------------------------------------

    /** Files composite id under its name, or marks the name as shared. */
    method AddName(names: HashMap, id: nat) returns (err: int)
      requires Comparable() && KeysAreContents(ops) && names != table && names.Valid(ops)
      requires 0 < id < |orig| && RepresentsName(orig, links, id, orig[id].name)
      requires NamesOk(orig, links, id, names.buckets, ops)
      modifies names
      ensures names.Valid(ops) && (err == 0 || err == ENOMEM)
      ensures err == 0 ==> NamesOk(orig, links, id + 1, names.buckets, ops)
    {
      hide LinksOk, HypotOk, ValidGraph, NestingRanked, ClosedRefs, KeyChain, HashMap.Valid, NameOk, Reverse;
      var n := types[id].name;
      ghost var bs, grew := names.buckets, NeedsToGrow(names.cap, names.sz);
      var k, v;
      var mem, mem': Memory := *, *;
      err, k, v := names.Insert(ops, n, id, Add, mem);
      ghost var grew' := NeedsToGrow(names.cap, names.sz);
      if err == EEXIST {
        err, k, v := names.Insert(ops, n, 0, Set, mem');
      }
      if err != 0 { return; }
      forall c ensures NameOk(orig, links, id + 1, c, KeyChain(names.buckets, ops, c)) {
        AddThenSet(orig, links, id, c, KeyChain(bs, ops, c), KeyChain(bs, ops, n) != [], grew, grew');
      }
    }

    method FillUniqueNames(names: HashMap) returns (err: int)
      requires Comparable() && KeysAreContents(ops) && names != table
      requires names.Valid(ops) && names.buckets == []
      modifies names
      ensures names.Valid(ops) && (err == 0 || err == ENOMEM)
      ensures err == 0 ==> NamesOk(orig, links, |orig|, names.buckets, ops)
    {
      NoNames(orig, links, ops);
      hide LinksOk, HypotOk, NestingRanked, ClosedRefs, HashMap.Valid, NamesOk;
      var id := 1;
      while id < |types|
        invariant 1 <= id <= |orig| && names.Valid(ops) && NamesOk(orig, links, id, names.buckets, ops)
      {
        if IsComposite(types[id]) && id == links[id] {
          err := AddName(names, id);
          if err != 0 { return; }
        } else {
          SkipName(orig, links, id, names.buckets, ops);
        }
        id := id + 1;
      }
      return 0;
    }

    method ResolveFwdType(names: HashMap, id: nat, ghost m0: seq<nat>)
      requires Comparable() && KeysAreContents(ops) && names.Valid(ops) && start <= id < |orig|
      requires |m0| == |orig| && NamesOk(orig, m0, |orig|, names.buckets, ops)
      requires links[id] == m0[id]
      modifies this`links
      ensures Comparable() && exists link :: ResolvedTo(orig, m0, id, link) && links == old(links)[id := link]
    {
      hide LinksOk, HypotOk, NestingRanked, ClosedRefs, HashMap.Valid, KeyChain;
      var t := types[id];
      if t.kind == Fwd && id == links[id] {
        var found, v := names.Find(ops, t.name);
        assert NameOk(orig, m0, |orig|, t.name, KeyChain(names.buckets, ops, t.name));
        if found && v != 0 && types[v].kind == FwdKind(t) {
          ForwardBisim(orig, id, v);
          WriteLink(id, v);
          assert ResolvedTo(orig, m0, id, v);
          return;
        }
      }
      assert ResolvedTo(orig, m0, id, links[id]);
      assert links == links[id := links[id]];
    }

    /** Forward declarations that still represent themselves are resolved by name. */
    method ResolveFwds() returns (err: int)
      requires CompositeStage(|orig|)
      modifies this`links
      ensures Comparable() && TableOk() && (err == 0 || err == ENOMEM)
      ensures err == 0 ==> CompositeStage(|orig|)
      ensures err == 0 ==> FwdsResolved(orig, old(links), links, start, |orig|) && NoneResolvable(orig, links, start)
    {
      hide LinksOk, HypotOk, ValidGraph, NestingRanked, ClosedRefs, Stage, ResolvedTo;
      var names := new HashMap();
      EmptyTableValid(ops);
      err := FillUniqueNames(names);
      if err < 0 { return; }
      ghost var m0 := links;
      var id := start;
      while id < |types|
        invariant start <= id <= |orig| && Comparable() && names.Valid(ops)
        invariant NamesOk(orig, m0, |orig|, names.buckets, ops)
        invariant FwdsResolved(orig, m0, links, start, id)
      {
        ResolveFwdType(names, id, m0);
        id := id + 1;
      }
      ResolvedMerged(orig, m0, links, start);
      ResolvedLeavesNone(orig, m0, links, start);
      MergeKeepsStage(orig, m0, links, table.Contents(), start, |orig|);
    }

    // ----- Reference types ------------------------------------------------------------------------

    /** The state during the reference pass. */
    ghost predicate RefStage()
      reads this, table
    {
      && ValidInput() && |types| == |links| == |hypot| == |orig| && TableOk()
      && RefInv(orig, types, links, table.Contents(), start)
    }

    /** Looks for a representative equal to the rewritten record id. */
    method FindRef(id: nat) returns (newId: nat)
      requires RefStage() && id < |orig| && links[id] == IN_PROGRESS_ID
      ensures newId < |orig|
      ensures newId == id || (links[newId] == newId && types[newId] == types[id])
      ensures newId == id ==> forall i :: 0 <= i < |links| && Listed(types, table.Contents(), i) ==> types[i] != types[id]
    {
      hide HashOf, RefInv, ValidGraph, NestingRanked, ClosedRefs, HashMap.Valid, HashMap.Contents, KeysAreContents;
      hide EqualByKind, WellFormed, IsRef, IsPrim;
      RefCandidates(orig, types, links, table.Contents(), start, id);
      var ids := Candidates(HashOf(types[id]));
      newId := id;
      var k := 0;
      while k < |ids|
        invariant 0 <= k <= |ids|
        invariant forall j :: 0 <= j < k ==> types[ids[j]] != types[id]
      {
        EqualByKindIsEquality(types[id], types[ids[k]]);
        if EqualByKind(types[id], types[ids[k]]) {
          assert Entry(HashOf(types[id]), ids[k]) in table.Contents();
          return ids[k];
        }
        k := k + 1;
      }
      assert forall i :: 0 <= i < |links| && Listed(types, table.Contents(), i) && types[i] == types[id] ==> i in ids;
    }

    method Representative(id: nat) returns (r: nat)
      requires RefStage() && id < |orig| && IsMapped(links, id)
      ensures r < |orig| && links[r] == r
      ensures ReachesRoot(orig, links, id, r) && Bisim(orig, id, r)
    {
      RefLinks(orig, types, links, table.Contents(), start);
      hide RefInv, ValidGraph, NestingRanked, ClosedRefs, HashMap.Valid, NoForwards, Bisim;
      r := Resolve(orig, links, id);
      RootIsRepresentative(orig, links, id);
      RootSound(orig, links, id);
    }

    method MarkInProgress(id: nat)
      requires RefStage() && id < |orig| && links[id] == UNPROCESSED_ID
      modifies this`links
      ensures RefStage() && links == old(links)[id := IN_PROGRESS_ID] && types[id] == orig[id]
    {
      hide ValidGraph, NestingRanked, HashMap.Valid, LinkPart, ReprPart, MeaningKept, SameLabels, ClosedRefs;
      MarkStep(orig, types, links, table.Contents(), start, id);
      links := links[id := IN_PROGRESS_ID];
    }

    /** Maps a type whose references are all representatives to an equal record, or to itself. */
    method FinishRef(id: nat) returns (r: int)
      requires RefStage() && id < |orig| && links[id] == IN_PROGRESS_ID
      requires SettledTo(types, links, id, |types[id].refs|)
      modifies this`links, table
      ensures r >= 0 || r == ENOMEM
      ensures r >= 0 ==> RefStage() && r < |orig| && links == old(links)[id := r] && links[r] == r
    {
      hide ValidGraph, NestingRanked, HashMap.Valid, HashMap.Contents, RefInv, SettledTo, HashOf, Listed;
      var newId := FindRef(id);
      ghost var m0, tbl0 := links, table.Contents();
      links := links[id := newId];
      if newId == id {
        var err := TableAdd(HashOf(types[id]), id);
        if err != 0 { return ENOMEM; }
      }
      FinishStep(orig, types, m0, tbl0, table.Contents(), start, id, newId);
      return newId;
    }

    /** Maps type id and everything it refers to up to composites; returns its representative. */
    method DedupRefType(id: nat) returns (r: int)
      requires RefStage() && id < |orig|
      modifies this`types, this`links, table
      ensures r >= 0 ==> RefStage() && RefFrame(old(types), old(links), types, links)
      ensures r >= 0 ==> r < |orig| && links[r] == r && IsMapped(links, id) && ReachesRoot(orig, links, id, r)
      ensures r >= 0 ==> Bisim(orig, id, r)
      ensures HeightOk(orig, height) && old(Safe(orig, links, height, id)) ==> r >= 0 || r == ENOMEM
      decreases OpenIds(links), 1
    {
      hide ValidGraph, NestingRanked, ClosedRefs, HashMap.Valid, HashMap.Contents, RefInv, NoForwards, Bisim, SettledTo, ReachesRoot;
      ghost var g0, m0 := types, links;
      RefFrameRefl(types, links);
      if links[id] == IN_PROGRESS_ID {
        InProgressIsRef(orig, types, links, table.Contents(), start, id);
        return ELOOP;
      }
      if IsMapped(links, id) {
        r := Representative(id);
        return;
      }
      OpenValues(orig, types, links, table.Contents(), start, id);
      MarkInProgress(id);
      assert OpenIds(links) < OpenIds(m0) by { assert id in OpenIds(m0) && id !in OpenIds(links); }
      ghost var m1 := links;
      InProgressIsRef(orig, types, links, table.Contents(), start, id);
      assert HeightOk(orig, height) && Safe(orig, m0, height, id) ==> InProgressFrom(links, height, height[id]);
      r := RewriteRefs(id);
      if r < 0 { return; }
      ghost var m2 := links;
      r := FinishRef(id);
      if r < 0 { return; }
      LinkedRoot(orig, types, links, table.Contents(), start, id);
      FrameWhole(g0, m0, m1, types, m2, links, id);
    }

    /** Replaces each reference of record id by its representative. */
    method RewriteRefs(id: nat) returns (err: int)
      requires RefStage() && id < |orig| && links[id] == IN_PROGRESS_ID && types[id] == orig[id]
      modifies this`types, this`links, table
      ensures err >= 0 ==> RefStage() && links[id] == IN_PROGRESS_ID
      ensures err >= 0 ==> SettledTo(types, links, id, |types[id].refs|)
      ensures err >= 0 ==> RefFrame(old(types)[id := types[id]], old(links), types, links)
      ensures HeightOk(orig, height) && InProgressFrom(old(links), height, height[id]) ==> err >= 0 || err == ENOMEM
      decreases OpenIds(links), 2
    {
      hide ValidGraph, NestingRanked, HashMap.Valid, HashMap.Contents, RefInv, NoForwards, Bisim, ReachesRoot;
      ghost var g0, m0 := types, links;
      RefFrameRefl(types, links);
      assert g0[id := types[id]] == g0;
      var k := 0;
      while k < |types[id].refs|
        invariant RefStage() && links[id] == IN_PROGRESS_ID && |types[id].refs| == |orig[id].refs|
        invariant 0 <= k <= |types[id].refs| && SettledTo(types, links, id, k)
        invariant forall j :: k <= j < |orig[id].refs| ==> types[id].refs[j] == orig[id].refs[j]
        invariant RefFrame(g0[id := types[id]], m0, types, links)
        decreases |orig[id].refs| - k
      {
        ghost var g1, m1 := types, links;
        FrameShrinks(g0[id := types[id]], m0, types, links);
        if HeightOk(orig, height) && InProgressFrom(m0, height, height[id]) {
          FrameInProgress(g0[id := types[id]], m0, types, links, height, height[id]);
          InProgressIsRef(orig, types, links, table.Contents(), start, id);
          ChildSafe(orig, links, height, id, k);
        }
        var ref := DedupRefType(types[id].refs[k]);
        if ref < 0 { return ref; }
        assert FrameAt(g1, m1, types, links, id);
        SettledFrame(g1, m1, types, links, id, k);
        RefFrameTrans(g0[id := g1[id]], m0, g1, m1, types, links);
        RewriteStep(orig, types, links, table.Contents(), start, id, k, ref);
        FrameRewrite(g0, m0, types, links, id, k, ref);
        SettledRewrite(types, links, id, k, ref);
        types := WithRef(types, id, k, ref);
        k := k + 1;
      }
      return 0;
    }

    method DedupRefTypes() returns (err: int)
      requires RefStage()
      modifies this`types, this`links, table
      ensures err == 0 ==> RefStage() && AllMapped(links) && RefFrame(old(types), old(links), types, links)
      ensures HeightOk(orig, height) && old(NoneInProgress(links)) ==> err == 0 || err == ENOMEM
    {
      hide HashMap.Valid, HashMap.Contents, RefInv, NoForwards, Bisim, ReachesRoot, ValidGraph, ClosedRefs, NestingRanked, HeightOk;
      RefFrameRefl(types, links);
      var id := start;
      while id < |types|
        invariant start <= id && RefStage() && RefFrame(old(types), old(links), types, links)
        invariant forall i :: start <= i < id && i < |links| ==> links[i] <= MAX_NR_TYPES
        invariant old(NoneInProgress(links)) ==> NoneInProgress(links)
      {
        ghost var g0, m0 := types, links;
        if HeightOk(orig, height) && NoneInProgress(m0) { NoneSafe(orig, m0, height, id); }
        var r := DedupRefType(id);
        if r < 0 { return r; }
        if NoneInProgress(m0) { FrameNone(g0, m0, types, links); }
        RefFrameTrans(old(types), old(links), g0, m0, types, links);
        forall i | start <= i < id && i < |links| ensures links[i] <= MAX_NR_TYPES {
          assert FrameAt(g0, m0, types, links, i);
        }
        id := id + 1;
      }
      EveryTypeMapped(orig, types, links, table.Contents(), start);
      return 0;
    }

    // ----- Compaction and remapping ---------------------------------------------------------------

    /** Moves the representatives down over the duplicates, in place, and records their new ids. */
    method CompactTypes()
      requires |types| == |links| == |hypot| && start <= |types|
      modifies this`types, this`hypot
      ensures Compacted(old(types), links, start, types, hypot)
    {
      var first := start;
      var hy: seq<nat> := seq(|hypot|, i requires i >= 0 => if i < first then i else UNPROCESSED_ID);
      var cur := types;
      var next, id := start, start;
      while id < |cur|
        invariant start <= id <= |cur| == |links| && next == NewPlace(links, start, id)
        invariant Compacting(old(types), links, start, cur, hy, id)
      {
        if links[id] == id {
          CompactMove(old(types), links, start, cur, hy, id);
          cur := cur[next := cur[id]];
          hy := hy[id := next];
          next := next + 1;
        } else {
          CompactSkip(old(types), links, start, cur, hy, id);
        }
        id := id + 1;
      }
      CompactDone(old(types), links, start, cur, hy);
      types, hypot := cur[..next], hy;
    }

    /** Rewrites the references of record j to new ids. */
    method RemapRecord(j: nat, ghost out: seq<Type>) returns (err: int)
      requires WellLinked(orig, links) && |hypot| == |links| && |types| == |out| && j < |types| && types[j] == out[j]
      requires forall k :: 0 <= k < |out[j].refs| ==> out[j].refs[k] < |links|
      requires forall i :: 0 <= i < |links| ==> NewId(orig, links, hypot, i) <= MAX_NR_TYPES
      modifies this`types
      ensures err == 0 && |types| == |out| && types == old(types)[j := types[j]]
      ensures RemappedTo(orig, links, hypot, out[j], types[j], |out[j].refs|)
    {
      var k := 0;
      while k < |types[j].refs|
        invariant |types| == |out| && types == old(types)[j := types[j]]
        invariant |types[j].refs| == |out[j].refs| && 0 <= k <= |out[j].refs|
        invariant RemappedTo(orig, links, hypot, out[j], types[j], k)
      {
        hide WellLinked;
        var r := Resolve(orig, links, types[j].refs[k]);
        assert hypot[r] == NewId(orig, links, hypot, out[j].refs[k]);
        if hypot[r] > MAX_NR_TYPES { return EINVAL; }
        types := types[j := types[j].(refs := types[j].refs[k := hypot[r]])];
        k := k + 1;
      }
      return 0;
    }

    method RemapTypes(ghost g: seq<Type>) returns (err: int)
      requires |g| == |links| == |hypot| == |orig| <= MAX_NR_TYPES && LinkPart(orig, links, start)
      requires WellLinked(orig, links) && AllMapped(links) && ClosedRefs(g)
      requires Compacted(g, links, start, types, hypot)
      modifies this`types
      ensures err == 0 && |types| == |old(types)|
      ensures Remapped(orig, links, hypot, start, old(types), types, |old(types)|)
    {
      hide WellLinked, LinkPart;
      ghost var out := types;
      forall i | 0 <= i < |links| ensures NewId(orig, links, hypot, i) <= MAX_NR_TYPES {
        NewIdInRange(orig, g, links, start, out, hypot, i);
        OutputSmaller(g, links, start, out, hypot);
      }
      var j := start;
      while j < |types|
        invariant start <= j <= |types| == |out|
        invariant Remapped(orig, links, hypot, start, out, types, j)
      {
        CompactedRefs(g, links, start, out, hypot, j);
        err := RemapRecord(j, out);
        j := j + 1;
      }
      err := 0;
    }

    // ----- The whole algorithm --------------------------------------------------------------------

    /** The state that the constructor leaves. */
    ghost predicate Fresh()
      reads this, table
    {
      && Comparable() && TableOk() && table.Contents() == multiset{}
      && forall i :: 0 <= i < |orig| ==> links[i] == if i == 0 || IsPinned(orig[i]) then i else UNPROCESSED_ID
    }

    /** Deduplicates the types in place.  On success every old id has a new id that means the
        same, up to what forward declarations hide, and no duplicates of primitive or reference types are
        left.  Composites that remain are not images of earlier ones under a graph morphism.  No declaration
        is left whose definition is the only composite of its name, and references to either have one id.
        On graphs as C programs have them only running out of memory makes it fail. */
    method Dedup() returns (err: int)
      requires Fresh()
      modifies this, table
      ensures err == 0 ==> Renumbered(orig, links, hypot, start, types)
      ensures err == 0 ==> MeaningPreserved(orig, links, hypot, start, types)
      ensures err == 0 ==> NoDuplicates(types, start) && DeclarationsResolved(types, start) && EnumsDefined(types, start)
      ensures err == 0 ==> DefinitionsShared(orig, links, hypot, start, types)
      ensures err == 0 && BaseDefined(orig, start) ==> CompositesDistinct(orig, links, start, |orig|)
      ensures RegularRefs(orig) && HeightOk(orig, height) ==> err == 0 || err == ENOMEM
    {
      hide LinksOk, HypotOk, ValidGraph, NestingRanked, ClosedRefs, BaseClosed, HashMap.Valid, KeysAreContents;
      hide Stage, RefInv, BaseStage, Renumbered, NoDuplicates, MeaningPreserved, CompositesDistinct, NoneResolvable, FwdsResolved;
      hide DeclarationsResolved, DefinitionsShared, EnumsDefined, BaseDefined, RefFrame;
      FreshBase(orig, links, table.Contents());
      err := Prep();
      if err != 0 { return; }
      err := DedupPrimTypes();
      if err != 0 { return; }
      err := DedupStructTypes();
      if err != 0 { return; }
      err := ResolveFwds();
      if err != 0 { return; }
      RefStart(orig, links, table.Contents(), start);
      ghost var m, tbl := links, table.Contents();
      err := DedupRefTypes();
      if err != 0 { return; }
      FrameKeepsOthers(orig, orig, m, tbl, types, links, start);
      err := CompactAndRemap();
    }

    method CompactAndRemap() returns (err: int)
      requires RefStage() && AllMapped(links) && NoneResolvable(orig, links, start)
      modifies this`types, this`hypot
      ensures err == 0 && Renumbered(orig, links, hypot, start, types) && NoDuplicates(types, start)
      ensures DeclarationsResolved(types, start) && EnumsDefined(types, start) && DefinitionsShared(orig, links, hypot, start, types)
      ensures MeaningPreserved(orig, links, hypot, start, types)
      ensures BaseDefined(orig, start) ==> CompositesDistinct(orig, links, start, |orig|)
    {
      ghost var g, tbl := types, table.Contents();
      RefParts(orig, types, links, tbl, start);
      hide ValidGraph, NestingRanked, ClosedRefs, BaseClosed, HashMap.Valid, GraphPart, LinkPart, ReprPart;
      hide WellLinked, Compacted, Remapped, Renumbered, NoDuplicates, MeaningPreserved, CompositesDistinct, BaseDefined;
      hide DeclarationsResolved, DefinitionsShared, EnumsDefined, NoneResolvable;
      CompactTypes();
      ghost var out := types;
      err := RemapTypes(g);
      assert Finished(orig, g, links, start, out, hypot, types);
      FinishedIsRenumbered(orig, g, links, start, out, hypot, types);
      FinishedHasNoDuplicates(orig, g, links, tbl, start, out, hypot, types);
      FinishedKeepsMeaning(orig, g, links, start, out, hypot, types);
      FinishedResolves(orig, g, links, start, out, hypot, types);
      FinishedEnums(orig, g, links, start, out, hypot, types);
      FinishedShares(orig, g, links, start, out, hypot, types);
    }
  }
}
