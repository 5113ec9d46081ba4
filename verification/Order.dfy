/** Topological ordering of C definitions over a cyclic type graph (btf_dump.c).

    The orderer visits types depth first.  A type reached through a pointer needs only a declaration
    unless it is anonymous; any other type has to be defined before its user. */
module Order {
  import opened Numbers
  import opened Btf

  datatype OrderState = NotOrdered | Ordering | Ordered

  // ----- What a definition needs ------------------------------------------------------------------

  /** A named composite behind a pointer needs only a declaration. */
  predicate Stops(t: Type, throughPtr: bool) { IsComposite(t) && throughPtr && t.name != 0 }

  /** The reference of t that is followed, if any: arrays lead to their element only. */
  predicate Follows(t: Type, k: nat) {
    && k < |t.refs|
    && (IsComposite(t) || t.kind == FuncProto
        || (k == 0 && (t.kind == Array || t.kind == Ptr || t.kind == Typedef || IsQualifier(t))))
  }

  predicate IsQualifier(t: Type) {
    t.kind == Volatile || t.kind == Const || t.kind == Restrict || t.kind == TypeTag
  }

  /** Types that refer to nothing that has to be ordered and define nothing. */
  predicate IsLeaf(t: Type) {
    t.kind == Int || t.kind == Float || t.kind == Func || t.kind == Var || t.kind == Datasec || t.kind == DeclTag
  }

  predicate IsDeclaration(t: Type) { IsAnyEnum(t) || t.kind == Fwd }

  /** t is a definition of its own in this position. */
  predicate Defines(t: Type, referenced: bool, throughPtr: bool) {
    || (IsComposite(t) && t.name != 0)
    || (t.kind == Typedef && !throughPtr)
    || (IsDeclaration(t) && (t.name != 0 || !referenced))
  }

  /** Whether what t refers to is needed through a pointer. */
  predicate Weakens(t: Type, throughPtr: bool) {
    if t.kind == Ptr || t.kind == FuncProto then true
    else if t.kind == Array || IsComposite(t) then false
    else throughPtr
  }

  /** How the code follows the references of t. */
  predicate Mode(t: Type, throughPtr: bool) {
    if t.kind == Ptr then true else if t.kind == Array || IsComposite(t) then false else throughPtr
  }

  /** Definition x is needed, within n references, where id is used. */
  ghost predicate Needs(g: seq<Type>, refd: seq<bool>, id: nat, throughPtr: bool, n: nat, x: nat)
    requires ClosedRefs(g) && id < |g| == |refd|
    decreases n, 0
  {
    && n > 0 && !Stops(g[id], throughPtr)
    && ((x == id && Defines(g[id], refd[id], throughPtr)) || InnerNeeds(g, refd, id, throughPtr, n - 1, x))
  }

  /** Definition x is needed by something that id refers to. */
  ghost predicate InnerNeeds(g: seq<Type>, refd: seq<bool>, id: nat, throughPtr: bool, n: nat, x: nat)
    requires ClosedRefs(g) && id < |g| == |refd|
    decreases n, 1
  {
    exists k: nat :: Follows(g[id], k) && Needs(g, refd, g[id].refs[k], Weakens(g[id], throughPtr), n, x)
  }

  /** Everything needed where id is used is in q. */
  ghost predicate Have(g: seq<Type>, refd: seq<bool>, q: seq<nat>, id: nat, throughPtr: bool)
    requires ClosedRefs(g) && id < |g| == |refd|
  {
    forall n: nat, x: nat :: Needs(g, refd, id, throughPtr, n, x) ==> x in q
  }

  ghost predicate HaveInner(g: seq<Type>, refd: seq<bool>, q: seq<nat>, id: nat, throughPtr: bool)
    requires ClosedRefs(g) && id < |g| == |refd|
  {
    forall n: nat, x: nat :: InnerNeeds(g, refd, id, throughPtr, n, x) ==> x in q
  }

  /** What is needed through a pointer is also needed by value. */
  lemma {:induction false} NeedsByValue(g: seq<Type>, refd: seq<bool>, id: nat, n: nat, x: nat)
    requires ClosedRefs(g) && id < |g| == |refd| && Needs(g, refd, id, true, n, x)
    ensures Needs(g, refd, id, false, n, x)
    decreases n
  {
    if !(x == id && Defines(g[id], refd[id], true)) {
      var k: nat :| Follows(g[id], k) && Needs(g, refd, g[id].refs[k], Weakens(g[id], true), n - 1, x);
      if Weakens(g[id], true) && !Weakens(g[id], false) { NeedsByValue(g, refd, g[id].refs[k], n - 1, x); }
      assert InnerNeeds(g, refd, id, false, n - 1, x);
    }
  }

  lemma HaveByValue(g: seq<Type>, refd: seq<bool>, q: seq<nat>, id: nat, throughPtr: bool)
    requires ClosedRefs(g) && id < |g| == |refd| && Have(g, refd, q, id, false)
    ensures Have(g, refd, q, id, throughPtr)
  {
    forall n: nat, x: nat | Needs(g, refd, id, throughPtr, n, x) ensures x in q {
      if throughPtr { NeedsByValue(g, refd, id, n, x); }
    }
  }

  lemma HaveMore(g: seq<Type>, refd: seq<bool>, q: seq<nat>, q': seq<nat>, id: nat, throughPtr: bool)
    requires ClosedRefs(g) && id < |g| == |refd| && q <= q' && Have(g, refd, q, id, throughPtr)
    ensures Have(g, refd, q', id, throughPtr)
  {
    hide Needs;
  }

  /** All references have been served. */
  ghost predicate RefsHave(g: seq<Type>, refd: seq<bool>, q: seq<nat>, id: nat, throughPtr: bool, hi: nat)
    requires ClosedRefs(g) && id < |g| == |refd|
  {
    forall k: nat :: Follows(g[id], k) && k < hi ==> Have(g, refd, q, g[id].refs[k], throughPtr)
  }

  lemma RefsHaveInner(g: seq<Type>, refd: seq<bool>, q: seq<nat>, id: nat, mode: bool, throughPtr: bool)
    requires ClosedRefs(g) && id < |g| == |refd|
    requires RefsHave(g, refd, q, id, mode, |g[id].refs|) && (mode ==> Weakens(g[id], throughPtr))
    ensures HaveInner(g, refd, q, id, throughPtr)
  {
    var weak := Weakens(g[id], throughPtr);
    forall n: nat, x: nat | InnerNeeds(g, refd, id, throughPtr, n, x) ensures x in q {
      var k: nat :| Follows(g[id], k) && Needs(g, refd, g[id].refs[k], weak, n, x);
      assert Have(g, refd, q, g[id].refs[k], mode);
      if !mode { HaveByValue(g, refd, q, g[id].refs[k], weak); }
    }
  }

  lemma InnerIsEnough(g: seq<Type>, refd: seq<bool>, q: seq<nat>, id: nat, throughPtr: bool)
    requires ClosedRefs(g) && id < |g| == |refd| && HaveInner(g, refd, q, id, throughPtr)
    requires Defines(g[id], refd[id], throughPtr) ==> id in q
    ensures Have(g, refd, q, id, throughPtr)
  {
    forall n: nat, x: nat | Needs(g, refd, id, throughPtr, n, x) ensures x in q {
      assert (x == id && Defines(g[id], refd[id], throughPtr)) || InnerNeeds(g, refd, id, throughPtr, n - 1, x);
    }
  }

  lemma StopsHave(g: seq<Type>, refd: seq<bool>, q: seq<nat>, id: nat, throughPtr: bool)
    requires ClosedRefs(g) && id < |g| == |refd| && Stops(g[id], throughPtr)
    ensures Have(g, refd, q, id, throughPtr)
  {
  }

  /** A type that leads nowhere has all it needs inside. */
  lemma LeafHaveInner(g: seq<Type>, refd: seq<bool>, q: seq<nat>, id: nat, throughPtr: bool)
    requires ClosedRefs(g) && id < |g| == |refd| && forall k: nat :: !Follows(g[id], k)
    ensures HaveInner(g, refd, q, id, throughPtr)
  {
  }

  // ----- Nothing else is queued -------------------------------------------------------------------

  /** A visit of id meets x within n references; it does not go past a composite that needs only a
      declaration. */
  ghost predicate Visits(g: seq<Type>, id: nat, throughPtr: bool, n: nat, x: nat)
    requires ClosedRefs(g) && id < |g|
    decreases n, 0
  {
    n > 0 && !Stops(g[id], throughPtr) && (x == id || VisitsInner(g, id, throughPtr, n - 1, x))
  }

  ghost predicate VisitsInner(g: seq<Type>, id: nat, throughPtr: bool, n: nat, x: nat)
    requires ClosedRefs(g) && id < |g|
    decreases n, 1
  {
    exists k: nat :: Follows(g[id], k) && Visits(g, g[id].refs[k], Mode(g[id], throughPtr), n, x)
  }

  /** A visit of id meets x, which is a definition. */
  ghost predicate Meets(g: seq<Type>, refd: seq<bool>, id: nat, throughPtr: bool, x: nat)
    requires ClosedRefs(g) && id < |g| == |refd|
  {
    x < |g| && Defines(g[x], refd[x], false) && exists n: nat :: Visits(g, id, throughPtr, n, x)
  }

  /** From q0 to q only definitions were queued that a visit of id meets. */
  ghost predicate Added(g: seq<Type>, refd: seq<bool>, id: nat, throughPtr: bool, q0: seq<nat>, q: seq<nat>)
    requires ClosedRefs(g) && id < |g| == |refd|
  {
    q0 <= q && forall i :: |q0| <= i < |q| ==> Meets(g, refd, id, throughPtr, q[i])
  }

  lemma AddedNone(g: seq<Type>, refd: seq<bool>, id: nat, throughPtr: bool, q: seq<nat>)
    requires ClosedRefs(g) && id < |g| == |refd|
    ensures Added(g, refd, id, throughPtr, q, q)
  {
  }

  lemma AddedSelf(g: seq<Type>, refd: seq<bool>, id: nat, throughPtr: bool, q0: seq<nat>, q: seq<nat>)
    requires ClosedRefs(g) && id < |g| == |refd| && Added(g, refd, id, throughPtr, q0, q)
    requires !Stops(g[id], throughPtr) && Defines(g[id], refd[id], false)
    ensures Added(g, refd, id, throughPtr, q0, q + [id])
  {
    assert Visits(g, id, throughPtr, 1, id);
    hide Visits;
  }

  /** What a visit of a reference meets is met by a visit of id. */
  lemma MeetsInner(g: seq<Type>, refd: seq<bool>, id: nat, throughPtr: bool, k: nat, x: nat)
    requires ClosedRefs(g) && id < |g| == |refd| && Follows(g[id], k) && !Stops(g[id], throughPtr)
    requires Meets(g, refd, g[id].refs[k], Mode(g[id], throughPtr), x)
    ensures Meets(g, refd, id, throughPtr, x)
  {
    var n: nat :| Visits(g, g[id].refs[k], Mode(g[id], throughPtr), n, x);
    assert VisitsInner(g, id, throughPtr, n, x);
    assert Visits(g, id, throughPtr, n + 1, x);
  }

  lemma AddedInner(g: seq<Type>, refd: seq<bool>, id: nat, throughPtr: bool, k: nat, q0: seq<nat>, q1: seq<nat>, q2: seq<nat>)
    requires ClosedRefs(g) && id < |g| == |refd| && Follows(g[id], k) && !Stops(g[id], throughPtr)
    requires Added(g, refd, id, throughPtr, q0, q1) && Added(g, refd, g[id].refs[k], Mode(g[id], throughPtr), q1, q2)
    ensures Added(g, refd, id, throughPtr, q0, q2) && q1 <= q2
  {
    hide Meets, ClosedRefs;
    forall i | |q0| <= i < |q2| ensures Meets(g, refd, id, throughPtr, q2[i]) {
      if i < |q1| { assert q2[i] == q1[i]; } else { MeetsInner(g, refd, id, throughPtr, k, q2[i]); }
    }
  }

  /** A composite that is visited through a pointer is visited as it is by value. */
  lemma AddedComposite(g: seq<Type>, refd: seq<bool>, id: nat, throughPtr: bool, q0: seq<nat>, q: seq<nat>)
    requires ClosedRefs(g) && id < |g| == |refd| && IsComposite(g[id]) && !Stops(g[id], throughPtr)
    requires Added(g, refd, id, false, q0, q)
    ensures Added(g, refd, id, throughPtr, q0, q)
  {
    forall i | |q0| <= i < |q| ensures Meets(g, refd, id, throughPtr, q[i]) {
      assert Meets(g, refd, id, false, q[i]);
      var n: nat :| Visits(g, id, false, n, q[i]);
      assert VisitsInner(g, id, throughPtr, n - 1, q[i]) <==> VisitsInner(g, id, false, n - 1, q[i]);
      assert Visits(g, id, throughPtr, n, q[i]);
    }
  }

  /** Everything that is needed is a definition that a visit meets. */
  lemma {:induction false} NeededIsVisited(g: seq<Type>, refd: seq<bool>, id: nat, throughPtr: bool, n: nat, x: nat)
    requires ClosedRefs(g) && id < |g| == |refd| && Needs(g, refd, id, throughPtr, n, x)
    ensures Visits(g, id, throughPtr, n, x) && x < |g| && Defines(g[x], refd[x], false)
    decreases n
  {
    if !(x == id && Defines(g[id], refd[id], throughPtr)) {
      var k: nat :| Follows(g[id], k) && Needs(g, refd, g[id].refs[k], Weakens(g[id], throughPtr), n - 1, x);
      if Weakens(g[id], throughPtr) && !Mode(g[id], throughPtr) { NeedsByValue(g, refd, g[id].refs[k], n - 1, x); }
      NeededIsVisited(g, refd, g[id].refs[k], Mode(g[id], throughPtr), n - 1, x);
      assert VisitsInner(g, id, throughPtr, n - 1, x);
    }
  }

  /** No visit of id reaches a function prototype other than through a pointer, within n references. */
  ghost predicate PrototypesBehindPointers(g: seq<Type>, id: nat, throughPtr: bool, n: nat)
    requires ClosedRefs(g) && id < |g|
    decreases n
  {
    n > 0 && !Stops(g[id], throughPtr) ==>
      && (g[id].kind == FuncProto ==> throughPtr)
      && forall k: nat :: Follows(g[id], k) ==> PrototypesBehindPointers(g, g[id].refs[k], Mode(g[id], throughPtr), n - 1)
  }

  /** Every composite and every declaration that a visit meets as a definition is needed, as long as
      prototypes are met only through pointers. */
  lemma {:induction false} VisitedIsNeeded(g: seq<Type>, refd: seq<bool>, id: nat, throughPtr: bool, n: nat, x: nat)
    requires ClosedRefs(g) && id < |g| == |refd| && PrototypesBehindPointers(g, id, throughPtr, n)
    requires Visits(g, id, throughPtr, n, x) && x < |g| && QueuedOnce(g[x]) && Defines(g[x], refd[x], false)
    ensures Needs(g, refd, id, throughPtr, n, x)
    decreases n
  {
    if x != id {
      var k: nat :| Follows(g[id], k) && Visits(g, g[id].refs[k], Mode(g[id], throughPtr), n - 1, x);
      VisitedIsNeeded(g, refd, g[id].refs[k], Mode(g[id], throughPtr), n - 1, x);
      assert InnerNeeds(g, refd, id, throughPtr, n - 1, x);
    }
  }

  // ----- Strong links -----------------------------------------------------------------------------

  /** Within n references, id leads to something that has to be defined first: a declaration, a composite
      that needs more than a declaration, or a typedef used by value. */
  ghost predicate Strong(g: seq<Type>, id: nat, throughPtr: bool, n: nat)
    requires ClosedRefs(g) && id < |g|
    decreases n
  {
    && n > 0 && !Stops(g[id], throughPtr)
    && (|| IsDeclaration(g[id]) || IsComposite(g[id]) || (g[id].kind == Typedef && !throughPtr)
        || exists k: nat :: Follows(g[id], k) && Strong(g, g[id].refs[k], Mode(g[id], throughPtr), n - 1))
  }

  ghost predicate IsStrong(g: seq<Type>, id: nat, throughPtr: bool)
    requires ClosedRefs(g) && id < |g|
  {
    exists n: nat :: Strong(g, id, throughPtr, n)
  }

  /** One of the first hi references of id is strong. */
  ghost predicate InnerStrong(g: seq<Type>, id: nat, throughPtr: bool, hi: nat)
    requires ClosedRefs(g) && id < |g|
  {
    exists k: nat :: Follows(g[id], k) && k < hi && IsStrong(g, g[id].refs[k], Mode(g[id], throughPtr))
  }

  lemma StrongInside(g: seq<Type>, id: nat, throughPtr: bool)
    requires ClosedRefs(g) && id < |g| && IsStrong(g, id, throughPtr)
    ensures !Stops(g[id], throughPtr)
    ensures || IsDeclaration(g[id]) || IsComposite(g[id]) || (g[id].kind == Typedef && !throughPtr)
            || InnerStrong(g, id, throughPtr, |g[id].refs|)
  {
    var n: nat :| Strong(g, id, throughPtr, n);
    if k: nat :| Follows(g[id], k) && Strong(g, g[id].refs[k], Mode(g[id], throughPtr), n - 1) {
      assert IsStrong(g, g[id].refs[k], Mode(g[id], throughPtr));
    }
  }

  lemma LeafNotStrong(g: seq<Type>, id: nat, throughPtr: bool)
    requires ClosedRefs(g) && id < |g| && forall k: nat :: !Follows(g[id], k)
    requires !IsComposite(g[id]) && !IsDeclaration(g[id]) && g[id].kind != Typedef
    ensures !IsStrong(g, id, throughPtr)
  {
    if IsStrong(g, id, throughPtr) { StrongInside(g, id, throughPtr); }
  }

  lemma InnerStrongMore(g: seq<Type>, id: nat, throughPtr: bool, k: nat)
    requires ClosedRefs(g) && id < |g| && k < |g[id].refs| && InnerStrong(g, id, throughPtr, k + 1)
    ensures InnerStrong(g, id, throughPtr, k) || IsStrong(g, g[id].refs[k], Mode(g[id], throughPtr))
  {
    hide IsStrong;
  }

  // ----- The queue --------------------------------------------------------------------------------

  /** Types that are queued at most once. */
  predicate QueuedOnce(t: Type) { IsComposite(t) || IsDeclaration(t) }

  /** Everything that entry i needs comes before it. */
  ghost predicate EntryOk(g: seq<Type>, refd: seq<bool>, q: seq<nat>, i: nat)
    requires ClosedRefs(g) && |g| == |refd| && i < |q| && q[i] < |g|
  {
    HaveInner(g, refd, q[..i], q[i], false)
  }

  ghost predicate QueueOrdered(g: seq<Type>, refd: seq<bool>, q: seq<nat>)
    requires ClosedRefs(g) && |g| == |refd|
  {
    forall i :: 0 <= i < |q| ==> q[i] < |g| && Defines(g[q[i]], refd[q[i]], false) && EntryOk(g, refd, q, i)
  }

  ghost predicate NoRepeats(g: seq<Type>, q: seq<nat>) {
    forall i, j :: 0 <= i < j < |q| && q[i] == q[j] < |g| ==> !QueuedOnce(g[q[i]])
  }

  ghost predicate StatesOk(g: seq<Type>, refd: seq<bool>, st: seq<OrderState>, q: seq<nat>)
    requires ClosedRefs(g) && |g| == |refd| == |st|
  {
    && (forall i :: 0 <= i < |st| && st[i] == Ordered ==> Have(g, refd, q, i, false))
    && (forall i :: 0 <= i < |st| && st[i] == Ordering ==> IsComposite(g[i]))
    && (forall i :: 0 <= i < |q| && q[i] < |st| && QueuedOnce(g[q[i]]) ==> st[q[i]] == Ordered)
  }

  ghost predicate OrderInv(g: seq<Type>, refd: seq<bool>, st: seq<OrderState>, q: seq<nat>)
    requires ClosedRefs(g) && |g| == |refd|
  {
    |st| == |g| && QueueOrdered(g, refd, q) && NoRepeats(g, q) && StatesOk(g, refd, st, q)
  }

  lemma QueueMore(g: seq<Type>, refd: seq<bool>, q: seq<nat>, id: nat)
    requires ClosedRefs(g) && id < |g| == |refd| && QueueOrdered(g, refd, q) && HaveInner(g, refd, q, id, false)
    requires Defines(g[id], refd[id], false)
    ensures QueueOrdered(g, refd, q + [id])
  {
    hide HaveInner;
    var q' := q + [id];
    forall i | 0 <= i < |q'| ensures q'[i] < |g| && Defines(g[q'[i]], refd[q'[i]], false) && EntryOk(g, refd, q', i) {
      if i < |q| {
        assert EntryOk(g, refd, q, i) && q'[..i] == q[..i];
      } else {
        assert q'[..i] == q;
      }
    }
  }

  lemma NoRepeatsMore(g: seq<Type>, st: seq<OrderState>, refd: seq<bool>, q: seq<nat>, id: nat)
    requires ClosedRefs(g) && id < |g| == |refd| == |st| && NoRepeats(g, q) && StatesOk(g, refd, st, q)
    requires QueuedOnce(g[id]) ==> st[id] != Ordered
    ensures NoRepeats(g, q + [id])
  {
    hide Have;
  }

  /** Queueing a definition whose needs have been met. */
  lemma PushKeeps(g: seq<Type>, refd: seq<bool>, st: seq<OrderState>, q: seq<nat>, id: nat)
    requires ClosedRefs(g) && id < |g| == |refd| && OrderInv(g, refd, st, q)
    requires HaveInner(g, refd, q, id, false) && (QueuedOnce(g[id]) ==> st[id] != Ordered) && Defines(g[id], refd[id], false)
    ensures OrderInv(g, refd, st[id := Ordered], q + [id]) && Have(g, refd, q + [id], id, false)
  {
    hide Have, HaveInner;
    QueueMore(g, refd, q, id);
    NoRepeatsMore(g, st, refd, q, id);
    var q' := q + [id];
    InnerMore(g, refd, q, q', id, false);
    InnerIsEnough(g, refd, q', id, false);
    forall i | 0 <= i < |st| && st[i] == Ordered ensures Have(g, refd, q', i, false) {
      HaveMore(g, refd, q, q', i, false);
    }
  }

  lemma InnerMore(g: seq<Type>, refd: seq<bool>, q: seq<nat>, q': seq<nat>, id: nat, throughPtr: bool)
    requires ClosedRefs(g) && id < |g| == |refd| && q <= q' && HaveInner(g, refd, q, id, throughPtr)
    ensures HaveInner(g, refd, q', id, throughPtr)
  {
    hide InnerNeeds;
  }

  /** Finishing a type that is not a definition of its own. */
  lemma MarkKeeps(g: seq<Type>, refd: seq<bool>, st: seq<OrderState>, q: seq<nat>, id: nat)
    requires ClosedRefs(g) && id < |g| == |refd| && OrderInv(g, refd, st, q) && Have(g, refd, q, id, false)
    ensures OrderInv(g, refd, st[id := Ordered], q)
  {
    hide Have, QueueOrdered;
  }

  lemma EnterKeeps(g: seq<Type>, refd: seq<bool>, st: seq<OrderState>, q: seq<nat>, id: nat)
    requires ClosedRefs(g) && id < |g| == |refd| && OrderInv(g, refd, st, q) && IsComposite(g[id]) && st[id] == NotOrdered
    ensures OrderInv(g, refd, st[id := Ordering], q)
  {
    hide Have, QueueOrdered;
  }

  /** Types whose size depends on the size of what they refer to. */
  predicate ByValue(t: Type) {
    IsComposite(t) || t.kind == Array || t.kind == Typedef || IsQualifier(t)
  }

  /** b is embedded by value directly in a. */
  ghost predicate EmbedStep(g: seq<Type>, a: nat, b: nat)
    requires a < |g|
  {
    ByValue(g[a]) && exists k: nat :: Follows(g[a], k) && g[a].refs[k] == b
  }

  /** p leads from a type to one embedded in it by value. */
  ghost predicate EmbedPath(g: seq<Type>, p: seq<nat>) {
    && |p| >= 1 && (forall j :: 0 <= j < |p| ==> p[j] < |g|)
    && forall j :: 0 <= j < |p| - 1 ==> EmbedStep(g, p[j], p[j + 1])
  }

  lemma StepNeeds(g: seq<Type>, refd: seq<bool>, a: nat, b: nat, n: nat, x: nat)
    requires ClosedRefs(g) && |g| == |refd| && a < |g| && b < |g| && EmbedStep(g, a, b) && Needs(g, refd, b, false, n, x)
    ensures InnerNeeds(g, refd, a, false, n, x) && Needs(g, refd, a, false, n + 1, x)
  {
    var k: nat :| Follows(g[a], k) && g[a].refs[k] == b;
    assert Needs(g, refd, g[a].refs[k], Weakens(g[a], false), n, x);
  }

  lemma {:induction false} PathNeeds(g: seq<Type>, refd: seq<bool>, p: seq<nat>)
    requires ClosedRefs(g) && |g| == |refd| && EmbedPath(g, p)
    requires var last := g[p[|p| - 1]]; IsComposite(last) && last.name != 0
    ensures Needs(g, refd, p[0], false, |p|, p[|p| - 1])
    ensures |p| > 1 ==> InnerNeeds(g, refd, p[0], false, |p| - 1, p[|p| - 1])
    decreases |p|
  {
    if |p| > 1 {
      hide Needs, InnerNeeds, ClosedRefs;
      assert EmbedPath(g, p[1..]) && EmbedStep(g, p[0], p[1]);
      hide EmbedStep;
      PathNeeds(g, refd, p[1..]);
      StepNeeds(g, refd, p[0], p[1], |p| - 1, p[|p| - 1]);
    }
  }

  /** Every named composite embedded by value in a queued definition was queued before it. */
  lemma EmbeddedIsEarlier(g: seq<Type>, refd: seq<bool>, q: seq<nat>, i: nat, p: seq<nat>)
    requires ClosedRefs(g) && |g| == |refd| && QueueOrdered(g, refd, q) && i < |q|
    requires EmbedPath(g, p) && |p| > 1 && p[0] == q[i]
    requires var last := g[p[|p| - 1]]; IsComposite(last) && last.name != 0
    ensures p[|p| - 1] in q[..i]
  {
    assert EntryOk(g, refd, q, i);
    PathNeeds(g, refd, p);
  }

  // ----- Progress and termination -----------------------------------------------------------------

  /** A visit only turns types that were not ordered into ordered ones. */
  ghost predicate Progress(st: seq<OrderState>, st': seq<OrderState>) {
    |st| == |st'| && forall i :: 0 <= i < |st| ==> st'[i] == st[i] || (st[i] == NotOrdered && st'[i] == Ordered)
  }

  lemma ProgressTrans(st0: seq<OrderState>, st1: seq<OrderState>, st2: seq<OrderState>)
    ensures Progress(st0, st0)
    ensures Progress(st0, st1) && Progress(st1, st2) ==> Progress(st0, st2)
  {
  }

  ghost function OpenComposites(g: seq<Type>, st: seq<OrderState>): set<nat>
    requires |st| == |g|
  {
    set i: nat | 0 <= i < |g| && IsComposite(g[i]) && st[i] == NotOrdered
  }

  ghost function Level(g: seq<Type>, height: seq<nat>, id: nat): nat
    requires id < |g| == |height|
  {
    if IsRef(g[id]) then height[id] + 1 else 0
  }

  lemma LevelDown(g: seq<Type>, height: seq<nat>, id: nat, k: nat)
    requires ClosedRefs(g) && id < |g| == |height| && HeightOk(g, height) && k < |g[id].refs|
    ensures g[id].refs[k] < |g| && (IsRef(g[id]) ==> Level(g, height, g[id].refs[k]) < Level(g, height, id))
  {
  }

  lemma OpenShrinks(g: seq<Type>, st: seq<OrderState>, st': seq<OrderState>)
    requires |st| == |g| && Progress(st, st')
    ensures OpenComposites(g, st') <= OpenComposites(g, st)
  {
  }

  // ----- When no cycle stands in the way ----------------------------------------------------------

  /** The rank of a visit; composites have one rank however they are reached. */
  ghost function Rank(g: seq<Type>, strong: seq<nat>, weak: seq<nat>, id: nat, throughPtr: bool): nat
    requires id < |g| == |strong| == |weak|
  {
    if IsComposite(g[id]) || !throughPtr then strong[id] else weak[id]
  }

  /** No definition needs itself: visits that do not stop go down in rank. */
  ghost predicate Orderable(g: seq<Type>, strong: seq<nat>, weak: seq<nat>)
    requires ClosedRefs(g)
  {
    && |strong| == |weak| == |g|
    && forall i: nat, k: nat, tp :: 0 <= i < |g| && Follows(g[i], k) && !Stops(g[i], tp) && !Stops(g[g[i].refs[k]], Mode(g[i], tp)) ==>
         Rank(g, strong, weak, g[i].refs[k], Mode(g[i], tp)) < Rank(g, strong, weak, i, tp)
  }

  /** Every type being ordered ranks above r. */
  ghost predicate Above(st: seq<OrderState>, strong: seq<nat>, r: int) {
    |strong| == |st| && forall i :: 0 <= i < |st| && st[i] == Ordering ==> strong[i] > r
  }

  ghost predicate Clear(g: seq<Type>, st: seq<OrderState>, strong: seq<nat>, weak: seq<nat>, id: nat, tp: bool)
    requires id < |g| == |st|
  {
    Stops(g[id], tp) || (|strong| == |weak| == |g| && Above(st, strong, Rank(g, strong, weak, id, tp)))
  }

  lemma AboveLater(st: seq<OrderState>, st': seq<OrderState>, strong: seq<nat>, r: int)
    requires Progress(st, st') && Above(st, strong, r)
    ensures Above(st', strong, r)
  {
  }

  lemma RefsHaveMore(g: seq<Type>, refd: seq<bool>, q: seq<nat>, q': seq<nat>, id: nat, mode: bool, k: nat)
    requires ClosedRefs(g) && id < |g| == |refd| && q <= q' && RefsHave(g, refd, q, id, mode, k)
    requires k < |g[id].refs| && Have(g, refd, q', g[id].refs[k], mode)
    ensures RefsHave(g, refd, q', id, mode, k + 1)
  {
    hide Have;
    forall l: nat | Follows(g[id], l) && l < k ensures Have(g, refd, q', g[id].refs[l], mode) {
      HaveMore(g, refd, q, q', g[id].refs[l], mode);
    }
  }

  lemma RefsStart(g: seq<Type>, refd: seq<bool>, q: seq<nat>, own: seq<nat>, st: seq<OrderState>, id: nat, mode: bool)
    requires ClosedRefs(g) && id < |g| == |refd|
    ensures RefsHave(g, refd, q, id, mode, 0) && Added(g, refd, id, mode, own, own) && !InnerStrong(g, id, mode, 0) && Progress(st, st)
  {
  }

  lemma RefsStep(g: seq<Type>, refd: seq<bool>, q: seq<nat>, q': seq<nat>, id: nat, mode: bool, k: nat)
    requires ClosedRefs(g) && id < |g| == |refd| && q <= q' && RefsHave(g, refd, q, id, mode, k)
    requires k < |g[id].refs| && Have(g, refd, q', g[id].refs[k], mode)
    ensures RefsHave(g, refd, q', id, mode, k + 1)
    ensures InnerStrong(g, id, mode, k + 1) ==> InnerStrong(g, id, mode, k) || IsStrong(g, g[id].refs[k], Mode(g[id], mode))
  {
    RefsHaveMore(g, refd, q, q', id, mode, k);
    if InnerStrong(g, id, mode, k + 1) { InnerStrongMore(g, id, mode, k); }
  }

  lemma VisitClear(g: seq<Type>, st: seq<OrderState>, strong: seq<nat>, weak: seq<nat>, id: nat, tp: bool, k: nat)
    requires ClosedRefs(g) && Orderable(g, strong, weak) && id < |g| == |st| && Follows(g[id], k) && !Stops(g[id], tp)
    requires Above(st, strong, Rank(g, strong, weak, id, tp) - 1)
    ensures Clear(g, st, strong, weak, g[id].refs[k], Mode(g[id], tp))
  {
  }

  lemma VisitLater(g: seq<Type>, st: seq<OrderState>, st': seq<OrderState>, strong: seq<nat>, weak: seq<nat>,
                   id: nat, tp: bool, k: nat)
    requires ClosedRefs(g) && id < |g| == |st| && Progress(st, st') && Follows(g[id], k) && !Stops(g[id], tp)
    ensures g[id].refs[k] < |g|
    ensures Orderable(g, strong, weak) && Above(st, strong, Rank(g, strong, weak, id, tp) - 1) ==>
              Clear(g, st', strong, weak, g[id].refs[k], Mode(g[id], tp))
  {
    if Orderable(g, strong, weak) && Above(st, strong, Rank(g, strong, weak, id, tp) - 1) {
      AboveLater(st, st', strong, Rank(g, strong, weak, id, tp) - 1);
      VisitClear(g, st', strong, weak, id, tp, k);
    }
  }

  ghost predicate NoneOrdering(st: seq<OrderState>) {
    forall i :: 0 <= i < |st| ==> st[i] != Ordering
  }

  lemma StartInv(g: seq<Type>, refd: seq<bool>, st: seq<OrderState>)
    requires ValidGraph(g) && ClosedRefs(g) && |g| == |refd| == |st|
    requires forall i :: 0 <= i < |st| ==> st[i] == if i == 0 then Ordered else NotOrdered
    ensures OrderInv(g, refd, st, [])
  {
    assert forall k: nat :: !Follows(g[0], k);
    LeafHaveInner(g, refd, [], 0, false);
    InnerIsEnough(g, refd, [], 0, false);
  }

  /** Types that only pass on what they refer to. */
  lemma PassThrough(g: seq<Type>, refd: seq<bool>, q: seq<nat>, id: nat, tp: bool)
    requires ClosedRefs(g) && id < |g| == |refd| && |g[id].refs| > 0
    requires g[id].kind == Ptr || g[id].kind == Array || g[id].kind == Typedef || IsQualifier(g[id])
    requires Have(g, refd, q, g[id].refs[0], Mode(g[id], tp))
    ensures HaveInner(g, refd, q, id, tp)
    ensures Defines(g[id], refd[id], tp) || Have(g, refd, q, id, tp)
  {
    RefsHaveInner(g, refd, q, id, Mode(g[id], tp), tp);
    if !Defines(g[id], refd[id], tp) { InnerIsEnough(g, refd, q, id, tp); }
  }

  // ----- References from other types --------------------------------------------------------------

  /** Record t marks its reference k as used by another type; the result of a function prototype is not
      marked. */
  predicate Marks(t: Type, k: nat) {
    k < |t.refs| && !IsPrim(t) && (t.kind == FuncProto ==> k > 0)
  }

  ghost predicate MarkedBy(g: seq<Type>, i: nat, j: nat, k: nat)
    requires j < |g|
  {
    Marks(g[j], k) && g[j].refs[k] == i
  }

  ghost predicate IsReferenced(g: seq<Type>, i: nat, hi: nat)
    requires hi <= |g|
  {
    exists j: nat, k: nat :: j < hi && MarkedBy(g, i, j, k)
  }

  method MarkReferenced(g: seq<Type>) returns (refd: seq<bool>)
    requires ValidGraph(g)
    ensures |refd| == |g| && forall i :: 0 <= i < |g| ==> (refd[i] <==> IsReferenced(g, i, |g|))
  {
    refd := seq(|g|, _ => false);
    var j := 0;
    while j < |g|
      invariant 0 <= j <= |g| == |refd|
      invariant forall i :: 0 <= i < |g| ==> (refd[i] <==> IsReferenced(g, i, j))
    {
      ghost var before := refd;
      var k := 0;
      while k < |g[j].refs|
        invariant 0 <= k <= |g[j].refs| && |refd| == |g|
        invariant forall i :: 0 <= i < |g| ==>
                    (refd[i] <==> before[i] || exists l: nat :: l < k && MarkedBy(g, i, j, l))
      {
        if Marks(g[j], k) {
          refd := refd[g[j].refs[k] := true];
          assert MarkedBy(g, g[j].refs[k], j, k);
        }
        k := k + 1;
      }
      forall i | 0 <= i < |g| ensures refd[i] <==> IsReferenced(g, i, j + 1) {
        if exists l: nat :: l < |g[j].refs| && MarkedBy(g, i, j, l) {
          var l: nat :| l < |g[j].refs| && MarkedBy(g, i, j, l);
          assert IsReferenced(g, i, j + 1);
        } else if IsReferenced(g, i, j + 1) {
          var j0: nat, k0: nat :| j0 < j + 1 && MarkedBy(g, i, j0, k0);
          assert j0 != j && IsReferenced(g, i, j);
        }
      }
      j := j + 1;
    }
  }

  // ----- The orderer ------------------------------------------------------------------------------

  lemma KindAt(g: seq<Type>, id: nat)
    requires ValidGraph(g) && id < |g|
    ensures WellFormed(g[id]) && (g[id].kind == Void ==> id == 0)
  {
  }

  /** What a pointer needs does not depend on how it is reached. */
  lemma PtrInner(g: seq<Type>, refd: seq<bool>, q: seq<nat>, id: nat, throughPtr: bool)
    requires ClosedRefs(g) && id < |g| == |refd| && g[id].kind == Ptr && HaveInner(g, refd, q, id, throughPtr)
    ensures HaveInner(g, refd, q, id, false)
  {
    forall n: nat, x: nat | InnerNeeds(g, refd, id, false, n, x) ensures x in q {
      assert InnerNeeds(g, refd, id, throughPtr, n, x);
    }
  }

  class Dump {
    const types: seq<Type>
    const referenced: seq<bool>
    ghost const height: seq<nat>
    ghost const strong: seq<nat>
    ghost const weak: seq<nat>
    var states: seq<OrderState>
    var queue: seq<nat>
    var cap: nat
    ghost var earlier: seq<nat>

    /** Everything queued so far, by this call and by earlier ones. */
    ghost function All(): seq<nat>
      reads this
    {
      earlier + queue
    }

    ghost predicate ValidInput() {
      ValidGraph(types) && ClosedRefs(types) && |referenced| == |types| == |height| && HeightOk(types, height)
    }

    ghost predicate Valid()
      reads this
    {
      ValidInput() && |states| == |types| && states[0] == Ordered && OrderInv(types, referenced, states, All()) && |queue| <= cap
    }

    constructor (g: seq<Type>, ghost refHeight: seq<nat>, ghost strongRank: seq<nat>, ghost weakRank: seq<nat>)
      requires ValidGraph(g) && HeightOk(g, refHeight)
      ensures Valid() && types == g && All() == [] && NoneOrdering(states)
      ensures height == refHeight && strong == strongRank && weak == weakRank
      ensures forall i :: 0 <= i < |g| ==> (referenced[i] <==> IsReferenced(g, i, |g|))
    {
      types, height, strong, weak := g, refHeight, strongRank, weakRank;
      queue, cap, earlier := [], 0, [];
      states := seq(|g|, i => if i == 0 then Ordered else NotOrdered);
      var refd := MarkReferenced(g);
      referenced := refd;
      new;
      StartInv(types, referenced, states);
    }

    /** The state after queueing id, and whether memory sufficed. */
    method AddEmitQueueId(id: nat) returns (err: int)
      requires id < |types| && |queue| <= cap
      modifies this`queue, this`cap
      ensures |queue| <= cap && (err == 0 || (err == ENOMEM && cap == old(cap) == |queue|))
      ensures queue == if err == 0 then old(queue) + [id] else old(queue)
    {
      if |queue| >= cap {
        var outOfMemory: bool := *;
        if outOfMemory { return ENOMEM; }
        cap := if cap * 3 / 2 > 16 then cap * 3 / 2 else 16;
      }
      queue := queue + [id];
      return 0;
    }

    /** Queues every definition that has to precede a use of id and that has not been queued yet.
        Returns 1 when id itself has to be defined first, 0 when a declaration is enough, or an error. */
    method OrderType(id: nat, throughPtr: bool) returns (r: int)
      requires Valid() && id < |types|
      modifies this`states, this`queue, this`cap
      ensures r <= 1 && (r < 0 ==> r == ELOOP || r == ENOMEM) && |states| == |types|
      ensures old(states[id]) == NotOrdered && IsLeaf(types[id]) ==> r == 0
      ensures Added(types, referenced, id, throughPtr, old(queue), queue)
      ensures r >= 0 ==> Valid() && Progress(old(states), states)
      ensures r >= 0 ==> Have(types, referenced, All(), id, throughPtr) && (IsStrong(types, id, throughPtr) ==> r == 1)
      ensures r == 1 ==> Have(types, referenced, All(), id, false)
      ensures Orderable(types, strong, weak) && old(Clear(types, states, strong, weak, id, throughPtr)) ==> r != ELOOP
      decreases OpenComposites(types, states), false, Level(types, height, id), 3
    {
      hide Have, HaveInner, OrderInv, ValidGraph, HeightOk, Orderable, Progress, Clear, ClosedRefs, Level, Added, InnerStrong, IsStrong, OpenComposites;
      if states[id] != NotOrdered {
        AddedNone(types, referenced, id, throughPtr, queue);
        r := Revisit(id, throughPtr);
        return;
      }
      KindAt(types, id);
      match types[id].kind
      case Int | Float | Func | Var | Datasec | DeclTag =>
        r := OrderLeaf(id, throughPtr);
      case Ptr =>
        r := OrderPtr(id, throughPtr);
      case Array | Volatile | Const | Restrict | TypeTag =>
        r := OrderPassing(id, throughPtr);
      case Typedef =>
        r := OrderTypedef(id, throughPtr);
      case Struct | Union =>
        r := OrderComposite(id, throughPtr);
      case Enum | Enum64 | Fwd =>
        r := OrderDeclaration(id, throughPtr);
      case FuncProto =>
        r := OrderProto(id, throughPtr);
    }

    /** A type met again, or void. */
    method Revisit(id: nat, throughPtr: bool) returns (r: int)
      requires Valid() && id < |types| && states[id] != NotOrdered
      ensures (r == 0 || r == 1 || r == ELOOP) && Progress(states, states)
      ensures r >= 0 ==> Have(types, referenced, All(), id, throughPtr) && (IsStrong(types, id, throughPtr) ==> r == 1)
      ensures r == 1 ==> Have(types, referenced, All(), id, false)
      ensures Orderable(types, strong, weak) && Clear(types, states, strong, weak, id, throughPtr) ==> r != ELOOP
    {
      if IsStrong(types, id, throughPtr) { StrongInside(types, id, throughPtr); }
      if states[id] == Ordered {
        HaveByValue(types, referenced, All(), id, throughPtr);
        return 1;
      }
      if Stops(types[id], throughPtr) {
        StopsHave(types, referenced, All(), id, throughPtr);
        return 0;
      }
      return ELOOP;
    }

    method OrderLeaf(id: nat, ghost throughPtr: bool) returns (r: int)
      requires Valid() && id < |types| && states[id] == NotOrdered
      requires IsLeaf(types[id])
      modifies this`states, this`queue, this`cap
      ensures r == 0 && Valid() && Progress(old(states), states) && Added(types, referenced, id, throughPtr, old(queue), queue)
      ensures Have(types, referenced, All(), id, throughPtr) && !IsStrong(types, id, throughPtr)
    {
      LeafHaveInner(types, referenced, All(), id, false);
      AddedNone(types, referenced, id, throughPtr, queue);
      LeafNotStrong(types, id, throughPtr);
      hide Have, HaveInner, OrderInv, Added, IsStrong, ValidGraph, HeightOk, Orderable;
      r := Finish(id, 0);
    }

    method OrderDeclaration(id: nat, ghost throughPtr: bool) returns (r: int)
      requires Valid() && id < |types| && states[id] == NotOrdered && IsDeclaration(types[id])
      modifies this`states, this`queue, this`cap
      ensures r <= 1 && (r < 0 ==> r == ELOOP || r == ENOMEM) && |states| == |types|
      ensures Added(types, referenced, id, throughPtr, old(queue), queue)
      ensures r >= 0 ==> Valid() && Progress(old(states), states)
      ensures r >= 0 ==> Have(types, referenced, All(), id, throughPtr) && (IsStrong(types, id, throughPtr) ==> r == 1)
      ensures r == 1 ==> Have(types, referenced, All(), id, false)
      ensures Orderable(types, strong, weak) && old(Clear(types, states, strong, weak, id, throughPtr)) ==> r != ELOOP
    {
      LeafHaveInner(types, referenced, All(), id, false);
      AddedNone(types, referenced, id, throughPtr, queue);
      if types[id].name != 0 || !referenced[id] { r := Queue(id, throughPtr, queue); } else { r := Finish(id, 1); }
    }

    /** An array or qualifier has to be defined as what it refers to. */
    method OrderPassing(id: nat, throughPtr: bool) returns (r: int)
      requires Valid() && id < |types| && states[id] == NotOrdered && (types[id].kind == Array || IsQualifier(types[id]))
      modifies this`states, this`queue, this`cap
      ensures r <= 1 && (r < 0 ==> r == ELOOP || r == ENOMEM) && |states| == |types|
      ensures Added(types, referenced, id, throughPtr, old(queue), queue)
      ensures r >= 0 ==> Valid() && Progress(old(states), states)
      ensures r >= 0 ==> Have(types, referenced, All(), id, throughPtr) && (IsStrong(types, id, throughPtr) ==> r == 1)
      ensures r == 1 ==> Have(types, referenced, All(), id, false)
      ensures Orderable(types, strong, weak) && old(Clear(types, states, strong, weak, id, throughPtr)) ==> r != ELOOP
      decreases OpenComposites(types, states), false, Level(types, height, id), 2
    {
      hide Have, HaveInner, OrderInv, ValidGraph, HeightOk, Orderable, Strong, IsStrong, InnerStrong;
      if IsStrong(types, id, throughPtr) { StrongInside(types, id, throughPtr); }
      r := OrderRef(id, throughPtr);
      if r >= 0 { InnerIsEnough(types, referenced, All(), id, throughPtr); }
      if r == 1 { InnerIsEnough(types, referenced, All(), id, false); }
    }

    /** A pointer counts as ordered even when its target could not be ordered. */
    method OrderPtr(id: nat, throughPtr: bool) returns (r: int)
      requires Valid() && id < |types| && states[id] == NotOrdered && types[id].kind == Ptr
      modifies this`states, this`queue, this`cap
      ensures r <= 1 && (r < 0 ==> r == ELOOP || r == ENOMEM) && |states| == |types|
      ensures r < 0 ==> states[id] == Ordered
      ensures Added(types, referenced, id, throughPtr, old(queue), queue)
      ensures r >= 0 ==> Valid() && Progress(old(states), states)
      ensures r >= 0 ==> Have(types, referenced, All(), id, throughPtr) && (IsStrong(types, id, throughPtr) ==> r == 1)
      ensures r == 1 ==> Have(types, referenced, All(), id, false)
      ensures Orderable(types, strong, weak) && old(Clear(types, states, strong, weak, id, throughPtr)) ==> r != ELOOP
      decreases OpenComposites(types, states), false, Level(types, height, id), 2
    {
      hide Have, OrderInv, ValidGraph, HeightOk, Orderable, Strong, IsStrong, InnerStrong;
      if IsStrong(types, id, throughPtr) { StrongInside(types, id, throughPtr); }
      r := OrderRef(id, throughPtr);
      if r < 0 {
        states := states[id := Ordered];
      } else {
        PtrInner(types, referenced, All(), id, throughPtr);
        r := Finish(id, r);
      }
    }

    method OrderProto(id: nat, throughPtr: bool) returns (r: int)
      requires Valid() && id < |types| && states[id] == NotOrdered && types[id].kind == FuncProto
      modifies this`states, this`queue, this`cap
      ensures r <= 1 && (r < 0 ==> r == ELOOP || r == ENOMEM) && |states| == |types|
      ensures Added(types, referenced, id, throughPtr, old(queue), queue)
      ensures r >= 0 ==> Valid() && Progress(old(states), states)
      ensures r >= 0 ==> Have(types, referenced, All(), id, throughPtr) && (IsStrong(types, id, throughPtr) ==> r == 1)
      ensures r == 1 ==> Have(types, referenced, All(), id, false)
      ensures Orderable(types, strong, weak) && old(Clear(types, states, strong, weak, id, throughPtr)) ==> r != ELOOP
      decreases OpenComposites(types, states), false, Level(types, height, id), 2
    {
      hide Have, HaveInner, OrderInv, ValidGraph, HeightOk, Orderable, Strong, IsStrong, InnerStrong;
      if IsStrong(types, id, throughPtr) { StrongInside(types, id, throughPtr); }
      r := OrderRefs(id, throughPtr);
      if r >= 0 {
        RefsHaveInner(types, referenced, All(), id, throughPtr, throughPtr);
        InnerIsEnough(types, referenced, All(), id, throughPtr);
        RefsHaveInner(types, referenced, All(), id, throughPtr, false);
        InnerIsEnough(types, referenced, All(), id, false);
      }
    }

    /** Marks a type that has all it needs. */
    method Finish(id: nat, verdict: int) returns (r: int)
      requires Valid() && id < |types| && HaveInner(types, referenced, All(), id, false)
      requires !Defines(types[id], referenced[id], false)
      modifies this`states
      ensures r == verdict && Valid() && states == old(states)[id := Ordered]
      ensures Have(types, referenced, All(), id, false) && Have(types, referenced, All(), id, true)
    {
      InnerIsEnough(types, referenced, All(), id, false);
      HaveByValue(types, referenced, All(), id, true);
      MarkKeeps(types, referenced, states, All(), id);
      states := states[id := Ordered];
      return verdict;
    }

    /** Queues and marks a definition whose needs have been met. */
    method Queue(id: nat, ghost throughPtr: bool, ghost q0: seq<nat>) returns (r: int)
      requires Valid() && id < |types| && HaveInner(types, referenced, All(), id, false)
      requires QueuedOnce(types[id]) ==> states[id] != Ordered
      requires Defines(types[id], referenced[id], false) && !Stops(types[id], throughPtr)
      requires Added(types, referenced, id, throughPtr, q0, queue)
      modifies this`states, this`queue, this`cap
      ensures (r == 1 || r == ENOMEM) && |states| == |types| && Added(types, referenced, id, throughPtr, q0, queue)
      ensures r == 1 ==> Valid() && states == old(states)[id := Ordered] && queue == old(queue) + [id]
      ensures r == 1 ==> Have(types, referenced, All(), id, false) && Have(types, referenced, All(), id, true)
    {
      PushKeeps(types, referenced, states, All(), id);
      AddedSelf(types, referenced, id, throughPtr, q0, queue);
      hide Added, Have;
      var err := AddEmitQueueId(id);
      if err != 0 { return err; }
      assert All() == old(All()) + [id];
      HaveByValue(types, referenced, All(), id, true);
      states := states[id := Ordered];
      return 1;
    }

    /** Orders what a pointer, array or qualifier refers to. */
    method OrderRef(id: nat, throughPtr: bool) returns (r: int)
      requires Valid() && id < |types| && states[id] == NotOrdered
      requires types[id].kind == Ptr || types[id].kind == Array || types[id].kind == Typedef || IsQualifier(types[id])
      modifies this`states, this`queue, this`cap
      ensures r <= 1 && (r < 0 ==> r == ELOOP || r == ENOMEM) && |states| == |types|
      ensures Added(types, referenced, id, throughPtr, old(queue), queue)
      ensures r >= 0 ==> Valid() && Progress(old(states), states)
      ensures r >= 0 ==> HaveInner(types, referenced, All(), id, throughPtr)
      ensures r >= 0 && InnerStrong(types, id, throughPtr, |types[id].refs|) ==> r == 1
      ensures r == 1 ==> HaveInner(types, referenced, All(), id, false)
      ensures Orderable(types, strong, weak) && old(Clear(types, states, strong, weak, id, throughPtr)) ==> r != ELOOP
      decreases OpenComposites(types, states), false, Level(types, height, id), 0
    {
      KindAt(types, id);
      LevelDown(types, height, id, 0);
      hide Have, OrderInv, Orderable, ValidGraph, HeightOk, ClosedRefs, Rank, OpenComposites, Level, Strong, IsStrong;
      var t := types[id];
      if Orderable(types, strong, weak) && Clear(types, states, strong, weak, id, throughPtr) {
        VisitClear(types, states, strong, weak, id, throughPtr, 0);
      }
      AddedNone(types, referenced, id, throughPtr, queue);
      r := OrderType(t.refs[0], Mode(t, throughPtr));
      AddedInner(types, referenced, id, throughPtr, 0, old(queue), old(queue), queue);
      if r >= 0 { PassThrough(types, referenced, All(), id, throughPtr); }
      if r == 1 {
        HaveByValue(types, referenced, All(), t.refs[0], Mode(t, false));
        PassThrough(types, referenced, All(), id, false);
      }
    }

    method OrderTypedef(id: nat, throughPtr: bool) returns (r: int)
      requires Valid() && id < |types| && states[id] == NotOrdered && types[id].kind == Typedef
      modifies this`states, this`queue, this`cap
      ensures r <= 1 && (r < 0 ==> r == ELOOP || r == ENOMEM) && |states| == |types|
      ensures Added(types, referenced, id, throughPtr, old(queue), queue)
      ensures r >= 0 ==> Valid() && Progress(old(states), states)
      ensures r >= 0 ==> Have(types, referenced, All(), id, throughPtr) && (IsStrong(types, id, throughPtr) ==> r == 1)
      ensures r == 1 ==> Have(types, referenced, All(), id, false)
      ensures Orderable(types, strong, weak) && old(Clear(types, states, strong, weak, id, throughPtr)) ==> r != ELOOP
      decreases OpenComposites(types, states), false, Level(types, height, id), 2
    {
      if IsStrong(types, id, throughPtr) { StrongInside(types, id, throughPtr); }
      hide Strong, IsStrong, InnerStrong;
      var isStrong := OrderRef(id, throughPtr);
      if isStrong < 0 { return isStrong; }
      if throughPtr && isStrong == 0 {
        InnerIsEnough(types, referenced, All(), id, true);
        return 0;
      }
      r := Queue(id, throughPtr, old(queue));
    }

    method OrderComposite(id: nat, throughPtr: bool) returns (r: int)
      requires Valid() && id < |types| && states[id] == NotOrdered && IsComposite(types[id])
      modifies this`states, this`queue, this`cap
      ensures r <= 1 && (r < 0 ==> r == ELOOP || r == ENOMEM) && |states| == |types|
      ensures Added(types, referenced, id, throughPtr, old(queue), queue)
      ensures r >= 0 ==> Valid() && Progress(old(states), states)
      ensures r >= 0 ==> Have(types, referenced, All(), id, throughPtr) && (IsStrong(types, id, throughPtr) ==> r == 1)
      ensures r == 1 ==> Have(types, referenced, All(), id, false)
      ensures Orderable(types, strong, weak) && old(Clear(types, states, strong, weak, id, throughPtr)) ==> r != ELOOP
      decreases OpenComposites(types, states), false, Level(types, height, id), 0
    {
      if IsStrong(types, id, throughPtr) { StrongInside(types, id, throughPtr); }
      hide Strong, IsStrong, InnerStrong;
      if Stops(types[id], throughPtr) {
        StopsHave(types, referenced, All(), id, throughPtr);
        AddedNone(types, referenced, id, throughPtr, queue);
        return 0;
      }
      EnterKeeps(types, referenced, states, All(), id);
      states := states[id := Ordering];
      assert OpenComposites(types, states) < OpenComposites(types, old(states)) by {
        assert id in OpenComposites(types, old(states));
      }
      r := OrderRefs(id, false);
      AddedComposite(types, referenced, id, throughPtr, old(queue), queue);
      if r < 0 { return; }
      RefsHaveInner(types, referenced, All(), id, false, false);
      if types[id].name != 0 {
        r := Queue(id, throughPtr, old(queue));
      } else {
        InnerIsEnough(types, referenced, All(), id, false);
        MarkKeeps(types, referenced, states, All(), id);
        states := states[id := Ordered];
        r := 1;
      }
      if r == 1 { HaveByValue(types, referenced, All(), id, throughPtr); }
    }

    /** Orders everything that id refers to; 1 when any of it has to be defined first. */
    method OrderRefs(id: nat, mode: bool) returns (r: int)
      requires Valid() && id < |types| && (IsComposite(types[id]) || types[id].kind == FuncProto)
      requires IsComposite(types[id]) ==> !mode
      modifies this`states, this`queue, this`cap
      ensures r <= 1 && (r < 0 ==> r == ELOOP || r == ENOMEM) && |states| == |types|
      ensures Added(types, referenced, id, mode, old(queue), queue)
      ensures r >= 0 ==> Valid() && Progress(old(states), states)
      ensures r >= 0 ==> RefsHave(types, referenced, All(), id, mode, |types[id].refs|)
      ensures r >= 0 && InnerStrong(types, id, mode, |types[id].refs|) ==> r == 1
      ensures Orderable(types, strong, weak) && old(Above(states, strong, Rank(types, strong, weak, id, mode) - 1)) ==> r != ELOOP
      decreases OpenComposites(types, states), IsComposite(types[id]), Level(types, height, id), 1
    {
      hide Have, OrderInv, Orderable, ValidGraph, HeightOk, ClosedRefs, Above, Rank, Clear, OpenComposites, Level, IsStrong, InnerStrong;
      hide Added, Progress, HaveInner, RefsHave;
      ghost var st0, q0 := states, queue;
      RefsStart(types, referenced, All(), queue, st0, id, mode);
      r := 0;
      var k := 0;
      while k < |types[id].refs|
        invariant 0 <= k <= |types[id].refs| && Valid() && Progress(st0, states) && 0 <= r <= 1
        invariant Added(types, referenced, id, mode, q0, queue) && (InnerStrong(types, id, mode, k) ==> r == 1)
        invariant RefsHave(types, referenced, All(), id, mode, k)
      {
        ghost var st1, q1 := states, All();
        OpenShrinks(types, st0, st1);
        var err := OrderMember(id, mode, k, st0, q0);
        if err < 0 { return err; }
        RefsStep(types, referenced, q1, All(), id, mode, k);
        if err > 0 { r := 1; }
        k := k + 1;
      }
    }

    /** Orders what reference k of id refers to; st0 and q0 are states and queue before the first reference. */
    method OrderMember(id: nat, mode: bool, k: nat, ghost st0: seq<OrderState>, ghost q0: seq<nat>) returns (r: int)
      requires Valid() && id < |types| && (IsComposite(types[id]) || types[id].kind == FuncProto)
      requires (IsComposite(types[id]) ==> !mode) && k < |types[id].refs| && |st0| == |types| && Progress(st0, states)
      requires Added(types, referenced, id, mode, q0, queue)
      modifies this`states, this`queue, this`cap
      ensures r <= 1 && (r < 0 ==> r == ELOOP || r == ENOMEM) && |states| == |types|
      ensures Added(types, referenced, id, mode, q0, queue) && types[id].refs[k] < |types|
      ensures r >= 0 ==> Valid() && Progress(st0, states) && old(All()) <= All()
      ensures r >= 0 ==> Have(types, referenced, All(), types[id].refs[k], mode) && (IsStrong(types, types[id].refs[k], mode) ==> r == 1)
      ensures Orderable(types, strong, weak) && Above(st0, strong, Rank(types, strong, weak, id, mode) - 1) ==> r != ELOOP
      decreases OpenComposites(types, states), IsComposite(types[id]), Level(types, height, id), 0
    {
      hide Have, OrderInv, Orderable, ValidGraph, HeightOk, ClosedRefs, Above, Rank, Clear, OpenComposites, Level, IsStrong;
      hide Added, Progress, HaveInner;
      ghost var st1, before := states, queue;
      LevelDown(types, height, id, k);
      VisitLater(types, st0, st1, strong, weak, id, mode, k);
      r := OrderType(types[id].refs[k], mode);
      AddedInner(types, referenced, id, mode, k, q0, before, queue);
      ProgressTrans(st0, st1, states);
    }

    /** Orders type id and everything it needs, as one call of the library.  Orders of earlier calls
        stand. */
    method DumpType(id: nat) returns (err: int)
      requires Valid() && NoneOrdering(states)
      modifies this
      ensures id >= |types| ==> err == EINVAL && Valid() && NoneOrdering(states) && All() == old(All())
      ensures id < |types| ==> err == 0 || err == ELOOP || err == ENOMEM
      ensures err == 0 ==> Valid() && NoneOrdering(states) && All() == old(All()) + queue
      ensures err == 0 ==> Added(types, referenced, id, false, [], queue)
      ensures err == 0 ==> Have(types, referenced, All(), id, false)
      ensures Orderable(types, strong, weak) ==> err != ELOOP
    {
      if id >= |types| { return EINVAL; }
      earlier := earlier + queue;
      queue := [];
      assert All() == old(All());
      err := OrderType(id, false);
      if err > 0 { err := 0; }
    }
  }
}
