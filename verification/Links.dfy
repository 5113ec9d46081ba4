/** The canonical map of deduplication: each id is unmapped, its own representative, or linked to
    another id.  Links form chains that end at a representative or at an unmapped id. */
module Links {
  import opened Btf
  import opened Meaning

  predicate IsMapped(m: seq<nat>, i: nat)
    requires i < |m|
  {
    m[i] <= MAX_NR_TYPES
  }

  /** Forward declarations rank above everything they may resolve to; within a class a link goes to a
      smaller id. */
  function Rank(g: seq<Type>, i: nat): nat
    requires i < |g|
  {
    (if IsForward(g[i]) then |g| else 0) + i
  }

  /** What a link may connect. */
  predicate LinkKinds(a: Type, b: Type) {
    if a.kind == Fwd then b.kind == Fwd || IsComposite(b)
    else if IsAnyEnum(a) then IsAnyEnum(b)
    else if IsComposite(a) then IsComposite(b)
    else a.kind == b.kind
  }

  /** Reference types link straight to a representative; all others link down the ranking. */
  ghost predicate LinkOk(g: seq<Type>, m: seq<nat>, i: nat)
    requires |m| == |g| && i < |g|
  {
    IsMapped(m, i) && m[i] != i ==>
      && m[i] < |m|
      && LinkKinds(g[i], g[m[i]])
      && (if IsRef(g[i]) then m[m[i]] == m[i] else Rank(g, m[i]) < Rank(g, i))
  }

  ghost predicate WellLinked(g: seq<Type>, m: seq<nat>) {
    && |m| == |g| <= MAX_NR_TYPES
    && forall i :: 0 <= i < |m| ==> LinkOk(g, m, i)
  }

  function ChainBound(g: seq<Type>, m: seq<nat>, i: nat): nat
    requires |m| == |g| && i < |g|
  {
    if m[i] == i then 0 else 1 + Rank(g, i)
  }

  /** The end of i's chain. */
  ghost function Root(g: seq<Type>, m: seq<nat>, i: nat): (r: nat)
    requires WellLinked(g, m) && i < |m|
    ensures r < |m| && (IsMapped(m, r) ==> m[r] == r)
    decreases ChainBound(g, m, i)
  {
    assert LinkOk(g, m, i);
    if IsMapped(m, i) && m[i] != i then Root(g, m, m[i]) else i
  }

  lemma {:induction false} RootKinds(g: seq<Type>, m: seq<nat>, i: nat)
    requires WellLinked(g, m) && i < |m|
    ensures LinkKinds(g[i], g[Root(g, m, i)]) || i == Root(g, m, i)
    decreases ChainBound(g, m, i)
  {
    assert LinkOk(g, m, i);
    if IsMapped(m, i) && m[i] != i { RootKinds(g, m, m[i]); }
  }

  /** When every id is mapped, every chain ends at a representative. */
  ghost predicate AllMapped(m: seq<nat>) {
    forall i :: 0 <= i < |m| ==> IsMapped(m, i)
  }

  method Resolve(ghost g: seq<Type>, m: seq<nat>, i: nat) returns (r: nat)
    requires WellLinked(g, m) && i < |m|
    ensures r == Root(g, m, i)
  {
    r := i;
    while IsMapped(m, r) && m[r] != r
      invariant r < |m| && Root(g, m, r) == Root(g, m, i)
      decreases ChainBound(g, m, r)
    {
      assert LinkOk(g, m, r);
      r := m[r];
    }
  }

  /** What the equivalence check takes type i for: a forward declaration that has been resolved stands for
      its definition. */
  ghost function StandsFor(g: seq<Type>, m: seq<nat>, i: nat): (r: nat)
    requires WellLinked(g, m) && i < |m|
    ensures r < |m| && (g[i].kind != Fwd ==> r == i)
  {
    if g[i].kind != Fwd || g[Root(g, m, i)].kind == Fwd then i else Root(g, m, i)
  }

  ghost function Resolution(g: seq<Type>, m: seq<nat>): (res: seq<nat>)
    requires WellLinked(g, m)
    ensures |res| == |g| && forall i :: 0 <= i < |g| ==> res[i] == StandsFor(g, m, i)
  {
    seq(|g|, i requires 0 <= i < |g| => StandsFor(g, m, i))
  }

  // ----- Writing links ----------------------------------------------------------------------------

  /** A type outside the reference kinds may be linked to any suitable type of smaller rank. */
  lemma SetLink(g: seq<Type>, m: seq<nat>, x: nat, y: nat)
    requires WellLinked(g, m) && x < |g| && y < |g| && !IsRef(g[x])
    requires x == y || (LinkKinds(g[x], g[y]) && Rank(g, y) < Rank(g, x))
    ensures WellLinked(g, m[x := y])
  {
    var m' := m[x := y];
    forall i | 0 <= i < |m'| ensures LinkOk(g, m', i) {
      assert LinkOk(g, m, i);
    }
  }

  /** An unmapped reference type may be linked to a representative of its own kind. */
  lemma SetRefLink(g: seq<Type>, m: seq<nat>, x: nat, y: nat)
    requires WellLinked(g, m) && x < |g| && y < |g| && IsRef(g[x]) && !IsMapped(m, x)
    requires x == y || (g[x].kind == g[y].kind && m[y] == y)
    ensures WellLinked(g, m[x := y])
  {
    var m' := m[x := y];
    forall i | 0 <= i < |m'| ensures LinkOk(g, m', i) {
      assert LinkOk(g, m, i);
    }
  }

  lemma SelfLink(g: seq<Type>, m: seq<nat>, x: nat)
    requires WellLinked(g, m) && x < |g| && (!IsMapped(m, x) || m[x] == x)
    ensures WellLinked(g, m[x := x])
  {
    var m' := m[x := x];
    forall i | 0 <= i < |m'| ensures LinkOk(g, m', i) {
      assert LinkOk(g, m, i);
    }
  }

  /** Marking an unmapped id with another "no type" value. */
  lemma MarkUnmapped(g: seq<Type>, m: seq<nat>, x: nat, v: nat)
    requires WellLinked(g, m) && x < |g| && !IsMapped(m, x) && v > MAX_NR_TYPES
    ensures WellLinked(g, m[x := v])
  {
    var m' := m[x := v];
    forall i | 0 <= i < |m'| ensures LinkOk(g, m', i) {
      assert LinkOk(g, m, i);
    }
  }

  /** Linking one end of a chain to another joins the two and leaves all other chains alone. */
  lemma {:induction false} RootAfterLink(g: seq<Type>, m: seq<nat>, x: nat, y: nat, i: nat)
    requires WellLinked(g, m) && x < |g| && y < |g| && i < |g| && x != y && WellLinked(g, m[x := y])
    requires Root(g, m, x) == x && Root(g, m, y) == y
    ensures Root(g, m[x := y], i) == if Root(g, m, i) == x then y else Root(g, m, i)
    decreases ChainBound(g, m, i)
  {
    var m' := m[x := y];
    assert LinkOk(g, m, i) && LinkOk(g, m', i) && LinkOk(g, m', x) && LinkOk(g, m', y) && LinkOk(g, m, y);
    assert Root(g, m', y) == y;
    if i != x && IsMapped(m, i) && m[i] != i { RootAfterLink(g, m, x, y, m[i]); }
  }

  /** What has been resolved to something other than a forward declaration stays so. */
  ghost predicate StaysResolved(g: seq<Type>, m0: seq<nat>, m: seq<nat>)
    requires WellLinked(g, m0) && WellLinked(g, m)
  {
    forall i :: 0 <= i < |g| && g[Root(g, m0, i)].kind != Fwd ==> g[Root(g, m, i)].kind != Fwd
  }

  lemma StaysResolvedTrans(g: seq<Type>, m0: seq<nat>, m1: seq<nat>, m2: seq<nat>)
    requires WellLinked(g, m0) && WellLinked(g, m1) && WellLinked(g, m2)
    ensures StaysResolved(g, m0, m0)
    ensures StaysResolved(g, m0, m1) && StaysResolved(g, m1, m2) ==> StaysResolved(g, m0, m2)
  {
    hide WellLinked, Root;
  }

  lemma LinkStaysResolved(g: seq<Type>, m: seq<nat>, x: nat, y: nat)
    requires WellLinked(g, m) && x < |g| && y < |g| && x != y && WellLinked(g, m[x := y]) && g[y].kind != Fwd
    requires Root(g, m, x) == x && Root(g, m, y) == y
    ensures StaysResolved(g, m, m[x := y])
  {
    assert |m| == |g|;
    hide WellLinked, Root;
    forall i | 0 <= i < |g| && g[Root(g, m, i)].kind != Fwd ensures g[Root(g, m[x := y], i)].kind != Fwd {
      RootAfterLink(g, m, x, y, i);
    }
  }

  // ----- Links and meaning --------------------------------------------------------------------------

  /** A linked type means the same as the type it is linked to. */
  ghost predicate LinksSound(g: seq<Type>, m: seq<nat>)
    requires ClosedRefs(g) && |m| == |g|
  {
    forall i :: 0 <= i < |m| && IsMapped(m, i) ==> m[i] < |m| && Bisim(g, i, m[i])
  }

  ghost predicate LinksOk(g: seq<Type>, m: seq<nat>)
    requires ClosedRefs(g)
  {
    WellLinked(g, m) && LinksSound(g, m)
  }

  lemma LinksOkParts(g: seq<Type>, m: seq<nat>)
    requires ClosedRefs(g) && LinksOk(g, m)
    ensures WellLinked(g, m) && LinksSound(g, m)
  {
    hide WellLinked, LinksSound;
  }

  lemma LinksOkWrite(g: seq<Type>, m: seq<nat>, x: nat, y: nat)
    requires ClosedRefs(g) && LinksOk(g, m) && x < |g| && y < |g| && !IsRef(g[x])
    requires x == y || (LinkKinds(g[x], g[y]) && Rank(g, y) < Rank(g, x))
    requires Bisim(g, x, y)
    ensures LinksOk(g, m[x := y])
  {
    SetLink(g, m, x, y);
    hide WellLinked, LinkKinds, Rank, ClosedRefs, Bisim;
  }

  lemma {:induction false} RootSound(g: seq<Type>, m: seq<nat>, i: nat)
    requires ClosedRefs(g) && WellLinked(g, m) && LinksSound(g, m) && i < |m|
    ensures Bisim(g, i, Root(g, m, i))
    decreases ChainBound(g, m, i)
  {
    assert LinkOk(g, m, i);
    if IsMapped(m, i) && m[i] != i {
      RootSound(g, m, m[i]);
    }
  }

  lemma SameRootBisim(g: seq<Type>, m: seq<nat>, a: nat, b: nat)
    requires ClosedRefs(g) && WellLinked(g, m) && LinksSound(g, m) && a < |m| && b < |m|
    requires Root(g, m, a) == Root(g, m, b)
    ensures Bisim(g, a, b)
  {
    RootSound(g, m, a);
    RootSound(g, m, b);
  }

  lemma RootsBisim(g: seq<Type>, m: seq<nat>, a: nat, b: nat)
    requires ClosedRefs(g) && WellLinked(g, m) && LinksSound(g, m) && a < |m| && b < |m| && Bisim(g, a, b)
    ensures Bisim(g, Root(g, m, a), Root(g, m, b)) && Bisim(g, Root(g, m, b), Root(g, m, a))
  {
    RootSound(g, m, a);
    RootSound(g, m, b);
  }
}
