/** The decision tree: conversion of a trained tree into fixed-point nodes (read_model_to_map.py) and its
    evaluation on a flow's features (xdp_prog_kern.c). */
module Classifier {
  import opened Numbers

  const FIXED_SCALE := 65536
  const MAX_FEATURES := 6
  const MAX_DT_DEPTH := 100

  // ----- Fixed-point numbers ----------------------------------------------------------------------

  /** The nearest integer; ties go to the even one. */
  function RoundHalfEven(x: real): (r: int)
    ensures -0.5 <= r as real - x <= 0.5
  {
    var f := x.Floor;
    var d := x - f as real;
    if d < 0.5 then f else if d > 0.5 then f + 1 else if f % 2 == 0 then f else f + 1
  }

  function FixedFromFloat(value: real): (r: nat)
    ensures r < TWO64
  {
    var scaled := RoundHalfEven(value * 65536.0);
    (if scaled < 0 then 0 else scaled) % TWO64
  }

  /** A left shift by 16 of a 64-bit number. */
  function FixedFromUint(v: nat): (r: nat)
    ensures r < TWO64
  {
    v * FIXED_SCALE % TWO64
  }

  /** The fixed-point test disagrees with the real one when the value lies just above the threshold, or
      is zero above a negative threshold. */
  predicate Flips(v: nat, t: real) {
    t < v as real <= t + 0.5 / 65536.0 || (v == 0 && t < 0.0)
  }

  lemma RoundedAtLeast(x: real, m: int)
    requires m % 2 == 0
    ensures m <= RoundHalfEven(x) <==> m as real - 0.5 <= x
  {
    var f := x.Floor;
    if m as real - 0.5 <= x {
      assert m - 1 <= f;
    }
  }

  /** The comparison in the kernel: the value is zero or at most half a step above the threshold. */
  lemma KernelComparison(v: nat, t: real)
    requires v < TWO48 && RoundHalfEven(t * 65536.0) < TWO64
    ensures FixedFromUint(v) <= FixedFromFloat(t) <==> v == 0 || (v * FIXED_SCALE) as real - 0.5 <= t * 65536.0
  {
    hide RoundHalfEven, FixedFromUint, FixedFromFloat;
    SmallFixed(v);
    RoundedFixed(t);
    RoundedAtLeast(t * 65536.0, v * FIXED_SCALE);
  }

  lemma SmallFixed(v: nat)
    requires v < TWO48
    ensures FixedFromUint(v) == v * FIXED_SCALE && v * FIXED_SCALE % 2 == 0
  {
  }

  lemma RoundedFixed(t: real)
    requires RoundHalfEven(t * 65536.0) < TWO64
    ensures var r := RoundHalfEven(t * 65536.0); FixedFromFloat(t) == if r < 0 then 0 else r
  {
    hide RoundHalfEven;
  }

  /** The comparison in the kernel is the comparison of the model exactly when it does not flip. */
  lemma ComparisonExact(v: nat, t: real)
    requires v < TWO48 && RoundHalfEven(t * 65536.0) < TWO64
    ensures (FixedFromUint(v) <= FixedFromFloat(t)) == (v as real <= t) <==> !Flips(v, t)
  {
    KernelComparison(v, t);
    hide RoundHalfEven, FixedFromUint, FixedFromFloat;
    assert (v * FIXED_SCALE) as real == v as real * 65536.0;
  }

  /** One comparison that flips: 5 is not at most 5 - 2^-18, but their fixed-point forms are equal. */
  lemma NearMissFlips()
    ensures !(5.0 <= 5.0 - 1.0 / 262144.0) && FixedFromUint(5) <= FixedFromFloat(5.0 - 1.0 / 262144.0)
  {
    var t := 5.0 - 1.0 / 262144.0;
    var y := t * 65536.0;
    assert y == 327680.0 - 0.25;
    RoundedAtLeast(y, 327680);
    assert RoundHalfEven(y) == 327680;
  }

  /** Values of 2^48 and more wrap around. */
  lemma LargeValuesWrap(v: nat)
    ensures FixedFromUint(v) == FixedFromUint(v % TWO48) == v % TWO48 * FIXED_SCALE
  {
    var q := v / TWO48;
    assert v == q * TWO48 + v % TWO48;
    assert v * FIXED_SCALE == q * TWO64 + v % TWO48 * FIXED_SCALE;
    ModMultiple(q, v % TWO48 * FIXED_SCALE);
  }

  lemma ModMultiple(q: nat, r: nat)
    requires r < TWO64
    ensures (q * TWO64 + r) % TWO64 == r
  {
  }

  // ----- Trained trees ----------------------------------------------------------------------------

  datatype Tree = Leaf(cls: int) | Split(feature: nat, threshold: real, left: Tree, right: Tree)

  /** A trained tree as the training library stores it; a leaf has equal children. */
  datatype Arrays = Arrays(left: seq<int>, right: seq<int>, feature: seq<int>, threshold: seq<real>, weights: seq<seq<real>>)

  predicate ValidArrays(a: Arrays) {
    |a.left| == |a.right| == |a.feature| == |a.threshold| == |a.weights| && forall i :: 0 <= i < |a.weights| ==> a.weights[i] != []
  }

  /** The first class of the greatest weight. */
  ghost predicate IsArgMax(w: seq<real>, k: nat) {
    k < |w| && (forall j :: 0 <= j < |w| ==> w[j] <= w[k]) && forall j :: 0 <= j < k ==> w[j] < w[k]
  }

  method ArgMax(w: seq<real>) returns (k: nat)
    requires w != []
    ensures IsArgMax(w, k)
  {
    k := 0;
    for i := 1 to |w|
      invariant 0 <= k < i && (forall j :: 0 <= j < i ==> w[j] <= w[k]) && forall j :: 0 <= j < k ==> w[j] < w[k]
    {
      if w[i] > w[k] { k := i; }
    }
  }

  /** The arrays hold tree t at index i. */
  ghost predicate Represents(a: Arrays, i: int, t: Tree)
    requires ValidArrays(a)
    decreases t
  {
    0 <= i < |a.left| &&
    match t
    case Leaf(l) => a.left[i] == a.right[i] && l >= 0 && IsArgMax(a.weights[i], l)
    case Split(f, th, l, r) =>
      && a.left[i] != a.right[i] && a.feature[i] == f < MAX_FEATURES && a.threshold[i] == th
      && Represents(a, a.left[i], l) && Represents(a, a.right[i], r)
  }

  /** What the model says: the label of the leaf that real comparisons lead to. */
  function RealLabel(t: Tree, v: seq<nat>): int
    requires |v| == MAX_FEATURES
  {
    match t
    case Leaf(l) => l
    case Split(f, th, l, r) => if f < MAX_FEATURES && v[f] as real <= th then RealLabel(l, v) else RealLabel(r, v)
  }

  /** The number of splits above the leaf reached. */
  function RealDepth(t: Tree, v: seq<nat>): nat
    requires |v| == MAX_FEATURES
  {
    match t
    case Leaf(_) => 0
    case Split(f, th, l, r) => 1 + if f < MAX_FEATURES && v[f] as real <= th then RealDepth(l, v) else RealDepth(r, v)
  }

  /** No comparison on the way to the leaf flips or is out of the range of fixed-point numbers. */
  predicate ClearPath(t: Tree, v: seq<nat>)
    requires |v| == MAX_FEATURES
  {
    match t
    case Leaf(_) => true
    case Split(f, th, l, r) =>
      && f < MAX_FEATURES && v[f] < TWO48 && RoundHalfEven(th * 65536.0) < TWO64 && !Flips(v[f], th)
      && if v[f] as real <= th then ClearPath(l, v) else ClearPath(r, v)
  }

  /** What the fixed-point comparisons lead to. */
  function FixedLabel(t: Tree, x: seq<nat>): int
    requires |x| == MAX_FEATURES
  {
    match t
    case Leaf(l) => l
    case Split(f, th, l, r) => if f < MAX_FEATURES && x[f] <= FixedFromFloat(th) then FixedLabel(l, x) else FixedLabel(r, x)
  }

  function FixedDepth(t: Tree, x: seq<nat>): nat
    requires |x| == MAX_FEATURES
  {
    match t
    case Leaf(_) => 0
    case Split(f, th, l, r) => 1 + if f < MAX_FEATURES && x[f] <= FixedFromFloat(th) then FixedDepth(l, x) else FixedDepth(r, x)
  }

  function Features(v: seq<nat>): (x: seq<nat>)
    ensures |x| == |v|
  {
    seq(|v|, i requires 0 <= i < |v| => FixedFromUint(v[i]))
  }

  lemma {:induction false} ClearPathAgrees(t: Tree, v: seq<nat>)
    requires |v| == MAX_FEATURES && ClearPath(t, v)
    ensures FixedLabel(t, Features(v)) == RealLabel(t, v) && FixedDepth(t, Features(v)) == RealDepth(t, v)
    decreases t
  {
    match t
    case Leaf(_) =>
    case Split(f, th, l, r) =>
      ComparisonExact(v[f], th);
      if v[f] as real <= th { ClearPathAgrees(l, v); } else { ClearPathAgrees(r, v); }
  }

  /** The turns taken on the way to the leaf: true for left. */
  function RealPath(t: Tree, v: seq<nat>): seq<bool>
    requires |v| == MAX_FEATURES
  {
    match t
    case Leaf(_) => []
    case Split(f, th, l, r) => if f < MAX_FEATURES && v[f] as real <= th then [true] + RealPath(l, v) else [false] + RealPath(r, v)
  }

  function FixedPath(t: Tree, x: seq<nat>): seq<bool>
    requires |x| == MAX_FEATURES
  {
    match t
    case Leaf(_) => []
    case Split(f, th, l, r) => if f < MAX_FEATURES && x[f] <= FixedFromFloat(th) then [true] + FixedPath(l, x) else [false] + FixedPath(r, x)
  }

  /** Values and thresholds on the way to the leaf are in the range of fixed-point numbers. */
  predicate InRange(t: Tree, v: seq<nat>)
    requires |v| == MAX_FEATURES
  {
    match t
    case Leaf(_) => true
    case Split(f, th, l, r) =>
      && f < MAX_FEATURES && v[f] < TWO48 && RoundHalfEven(th * 65536.0) < TWO64
      && if v[f] as real <= th then InRange(l, v) else InRange(r, v)
  }

  /** Fixed-point comparisons lead to the same leaf as real ones if and only if none on the path flips. */
  lemma {:induction false} SameLeaf(t: Tree, v: seq<nat>)
    requires |v| == MAX_FEATURES && InRange(t, v)
    ensures FixedPath(t, Features(v)) == RealPath(t, v) <==> ClearPath(t, v)
    decreases t
  {
    hide Flips, RoundHalfEven, FixedFromFloat, FixedFromUint;
    match t
    case Leaf(_) =>
    case Split(f, th, l, r) =>
      ComparisonExact(v[f], th);
      var x := Features(v);
      var left, stays := v[f] as real <= th, x[f] <= FixedFromFloat(th);
      assert x[f] == FixedFromUint(v[f]);
      if left { SameLeaf(l, v); } else { SameLeaf(r, v); }
      var p := if stays then FixedPath(l, x) else FixedPath(r, x);
      var q := if left then RealPath(l, v) else RealPath(r, v);
      TurnsCancel(stays, left, p, q);
  }

  lemma TurnsCancel(a: bool, b: bool, p: seq<bool>, q: seq<bool>)
    ensures [a] + p == [b] + q <==> a == b && p == q
  {
    assert ([a] + p)[0] == a && ([b] + q)[0] == b && ([a] + p)[1..] == p && ([b] + q)[1..] == q;
  }

  // ----- Flattened trees --------------------------------------------------------------------------

  datatype Node = Node(leftIdx: int, rightIdx: int, splitValue: nat, featureIdx: int, isLeaf: bool, cls: int)

  const UNUSED := Node(-1, -1, 0, -1, true, 0)

  /** Node i is what conversion makes of entry i of the arrays. */
  ghost predicate Converted(a: Arrays, i: nat, n: Node)
    requires ValidArrays(a) && i < |a.left|
  {
    if a.left[i] == a.right[i] then
      n.leftIdx == -1 && n.rightIdx == -1 && n.splitValue == 0 && n.featureIdx == -1 && n.isLeaf
      && n.cls >= 0 && IsArgMax(a.weights[i], n.cls)
    else
      n == Node(a.left[i], a.right[i], FixedFromFloat(a.threshold[i]), a.feature[i], false, -1)
  }

  /** Converts a trained tree; one with more nodes than there is room for is refused. */
  method ConvertTree(a: Arrays, maxNodes: nat) returns (ok: bool, nodes: seq<Node>)
    requires ValidArrays(a)
    ensures ok <==> |a.left| <= maxNodes
    ensures ok ==> |nodes| == maxNodes && forall i :: 0 <= i < |a.left| ==> Converted(a, i, nodes[i])
    ensures ok ==> forall i :: |a.left| <= i < maxNodes ==> nodes[i] == UNUSED
  {
    nodes := [];
    if |a.left| > maxNodes { return false, nodes; }
    while |nodes| < maxNodes
      invariant |nodes| <= maxNodes && forall i :: 0 <= i < |nodes| ==> nodes[i] == UNUSED
    {
      nodes := nodes + [UNUSED];
    }
    for i := 0 to |a.left|
      invariant |nodes| == maxNodes && forall j :: 0 <= j < i ==> Converted(a, j, nodes[j])
      invariant forall j :: i <= j < maxNodes ==> nodes[j] == UNUSED
    {
      if a.left[i] == a.right[i] {
        var l := ArgMax(a.weights[i]);
        nodes := nodes[i := Node(-1, -1, 0, -1, true, l)];
      } else {
        nodes := nodes[i := Node(a.left[i], a.right[i], FixedFromFloat(a.threshold[i]), a.feature[i], false, -1)];
      }
    }
    return true, nodes;
  }

  /** Walks the nodes from the root; anything out of range, or a path that is too long, gives label 0. */
  method PredictDt(nodes: seq<Node>, numNodes: nat, x: seq<nat>) returns (answer: int)
    requires |x| == MAX_FEATURES
    ensures answer == Walk(nodes, numNodes, x, 0, MAX_DT_DEPTH)
  {
    if numNodes == 0 { return 0; }
    var idx := 0;
    for depth := 0 to MAX_DT_DEPTH
      invariant idx >= 0 && Walk(nodes, numNodes, x, 0, MAX_DT_DEPTH) == Walk(nodes, numNodes, x, idx, MAX_DT_DEPTH - depth)
    {
      if idx >= numNodes || idx >= |nodes| { return 0; }
      var n := nodes[idx];
      if n.isLeaf { return n.cls; }
      if n.featureIdx < 0 || n.featureIdx >= MAX_FEATURES { return 0; }
      if x[n.featureIdx] <= n.splitValue {
        if n.leftIdx < 0 || n.leftIdx >= |nodes| { return 0; }
        idx := n.leftIdx;
      } else {
        if n.rightIdx < 0 || n.rightIdx >= |nodes| { return 0; }
        idx := n.rightIdx;
      }
    }
    return 0;
  }

  /** The label found from node idx within some number of nodes. */
  function Walk(nodes: seq<Node>, numNodes: nat, x: seq<nat>, idx: int, budget: nat): int
    requires |x| == MAX_FEATURES
    decreases budget
  {
    if budget == 0 || !(0 <= idx < numNodes && idx < |nodes|) then 0
    else
      var n := nodes[idx];
      if n.isLeaf then n.cls
      else if !(0 <= n.featureIdx < MAX_FEATURES) then 0
      else Walk(nodes, numNodes, x, if x[n.featureIdx] <= n.splitValue then n.leftIdx else n.rightIdx, budget - 1)
  }

  lemma IsArgMaxUnique(w: seq<real>, k: nat, l: nat)
    requires IsArgMax(w, k) && IsArgMax(w, l)
    ensures k == l
  {
    assert w[k] <= w[l] && w[l] <= w[k];
  }

  /** Walking the converted nodes follows the tree as far as the budget goes. */
  lemma {:induction false} WalkFollowsTree(a: Arrays, nodes: seq<Node>, x: seq<nat>, i: int, t: Tree, budget: nat)
    requires ValidArrays(a) && |x| == MAX_FEATURES && |a.left| <= |nodes|
    requires forall j :: 0 <= j < |a.left| ==> Converted(a, j, nodes[j])
    requires Represents(a, i, t)
    ensures Walk(nodes, |a.left|, x, i, budget) == if FixedDepth(t, x) < budget then FixedLabel(t, x) else 0
    decreases t
  {
    if budget > 0 {
      assert Converted(a, i, nodes[i]);
      match t
      case Leaf(l) => IsArgMaxUnique(a.weights[i], l, nodes[i].cls);
      case Split(f, th, l, r) =>
        if x[f] <= FixedFromFloat(th) {
          WalkFollowsTree(a, nodes, x, a.left[i], l, budget - 1);
        } else {
          WalkFollowsTree(a, nodes, x, a.right[i], r, budget - 1);
        }
    }
  }

  /** The kernel's answer on a converted tree, for all inputs: the label of the leaf that fixed-point
      comparisons reach, if it is at most 99 splits deep, and 0 otherwise. */
  lemma PredictionExact(a: Arrays, nodes: seq<Node>, x: seq<nat>, t: Tree)
    requires ValidArrays(a) && |x| == MAX_FEATURES && |a.left| <= |nodes|
    requires forall j :: 0 <= j < |a.left| ==> Converted(a, j, nodes[j])
    requires Represents(a, 0, t)
    ensures Walk(nodes, |a.left|, x, 0, MAX_DT_DEPTH) == if FixedDepth(t, x) <= 99 then FixedLabel(t, x) else 0
  {
    WalkFollowsTree(a, nodes, x, 0, t, MAX_DT_DEPTH);
  }

  /** The kernel gives the model's answer when no comparison on the path flips and the leaf is at most 99
      splits deep. */
  lemma PredictionIsRight(a: Arrays, nodes: seq<Node>, v: seq<nat>, t: Tree)
    requires ValidArrays(a) && |v| == MAX_FEATURES && |a.left| <= |nodes|
    requires forall j :: 0 <= j < |a.left| ==> Converted(a, j, nodes[j])
    requires Represents(a, 0, t) && ClearPath(t, v) && RealDepth(t, v) <= 99
    ensures Walk(nodes, |a.left|, Features(v), 0, MAX_DT_DEPTH) == RealLabel(t, v)
  {
    ClearPathAgrees(t, v);
    PredictionExact(a, nodes, Features(v), t);
  }

  /** A tree of one comparison is answered right for both labels exactly when the comparison does not
      flip. */
  lemma FlipChangesAnswer(v: seq<nat>, f: nat, th: real)
    requires |v| == MAX_FEATURES && f < MAX_FEATURES && v[f] < TWO48 && RoundHalfEven(th * 65536.0) < TWO64
    ensures var t := Split(f, th, Leaf(0), Leaf(1)); FixedLabel(t, Features(v)) == RealLabel(t, v) <==> !Flips(v[f], th)
  {
    ComparisonExact(v[f], th);
  }

  function Chain(n: nat): Tree { if n == 0 then Leaf(1) else Split(0, 1.0, Chain(n - 1), Leaf(0)) }

  lemma {:induction false} ChainDepth(n: nat, x: seq<nat>)
    requires |x| == MAX_FEATURES && x[0] == 0
    ensures FixedDepth(Chain(n), x) == n && FixedLabel(Chain(n), x) == 1
  {
    if n > 0 { ChainDepth(n - 1, x); }
  }

  /** A leaf 100 splits deep, which training allows, is never reached. */
  lemma DeepLeafMissed(a: Arrays, nodes: seq<Node>, x: seq<nat>)
    requires ValidArrays(a) && |x| == MAX_FEATURES && x[0] == 0 && |a.left| <= |nodes|
    requires forall j :: 0 <= j < |a.left| ==> Converted(a, j, nodes[j])
    requires Represents(a, 0, Chain(100))
    ensures FixedLabel(Chain(100), x) == 1 && Walk(nodes, |a.left|, x, 0, MAX_DT_DEPTH) == 0
  {
    ChainDepth(100, x);
    PredictionExact(a, nodes, x, Chain(100));
  }

  /** The arrays of a chain of n splits: split i has the next one on the left and leaf n + 1 + i on the
      right. */
  function ChainArrays(n: nat): (a: Arrays)
    ensures ValidArrays(a) && |a.left| == 2 * n + 1
  {
    Arrays(seq(2 * n + 1, i => if i < n then i + 1 else -1), seq(2 * n + 1, i => if i < n then n + 1 + i else -1),
           seq(2 * n + 1, i => if i < n then 0 else -2), seq(2 * n + 1, i => if i < n then 1.0 else -2.0),
           seq(2 * n + 1, i => if i == n then [0.0, 1.0] else [1.0, 0.0]))
  }

  lemma {:induction false} ChainRepresented(n: nat, i: nat)
    requires i <= n
    ensures Represents(ChainArrays(n), i, Chain(n - i))
    decreases n - i
  {
    var a := ChainArrays(n);
    if i < n {
      ChainRepresented(n, i + 1);
      assert Represents(a, n + 1 + i, Leaf(0)) by { assert IsArgMax(a.weights[n + 1 + i], 0); }
    } else {
      assert IsArgMax(a.weights[n], 1);
    }
  }

  /** Such a tree, from conversion to the answer: 0, although the model says 1. */
  method DeepLeaf() returns (answer: int, right: int)
    ensures answer == 0 && right == 1
  {
    hide Chain, ChainArrays, Represents, RealLabel, FixedLabel, Walk, Converted;
    var a, v := ChainArrays(100), seq(MAX_FEATURES, _ => 0);
    ZeroFeature(v);
    var ok, nodes := ConvertTree(a, PY_MAX_DT_NODES);
    var x := Features(v);
    answer := PredictDt(nodes, |a.left|, x);
    right := RealLabel(Chain(100), v);
    ChainRepresented(100, 0);
    DeepLeafMissed(a, nodes, x);
    ChainReal(100, v);
  }

  lemma ZeroFeature(v: seq<nat>)
    requires |v| == MAX_FEATURES && v[0] == 0
    ensures Features(v)[0] == 0
  {
  }

  lemma {:induction false} ChainReal(n: nat, v: seq<nat>)
    requires |v| == MAX_FEATURES && v[0] == 0
    ensures RealLabel(Chain(n), v) == 1
  {
    if n > 0 { ChainReal(n - 1, v); }
  }

  // ----- Two layouts ------------------------------------------------------------------------------

  /** The largest trees of the model loader and of the kernel. */
  const PY_MAX_DT_NODES := 600
  const MAX_DT_NODES := 5000

  /** The layout of a tree: the nodes, their number (padded to eight bytes), and two unused tables. */
  const NODE_SZ := 32

  function CountOffset(maxNodes: nat): nat { NODE_SZ * maxNodes }

  function TreeSize(maxNodes: nat): nat { CountOffset(maxNodes) + 8 + 2 * 8 * MAX_FEATURES }

  /** The number of nodes as the kernel reads it lies inside what the model loader provides if and only if
      the kernel's limit is larger by at most three; with 600 and 5000 it does not. */
  lemma CountOutside(loader: nat, kernel: nat)
    ensures CountOffset(kernel) + 4 <= TreeSize(loader) <==> kernel <= loader + 3
    ensures !(CountOffset(MAX_DT_NODES) + 4 <= TreeSize(PY_MAX_DT_NODES))
  {
  }

  /** Every node on the path that fixed-point comparisons take has an index below n. */
  predicate PathBelow(a: Arrays, i: int, t: Tree, x: seq<nat>, n: nat)
    requires ValidArrays(a) && |x| == MAX_FEATURES
    decreases t
  {
    0 <= i < n &&
    match t
    case Leaf(_) => true
    case Split(f, th, l, r) =>
      i < |a.left| && if f < MAX_FEATURES && x[f] <= FixedFromFloat(th) then PathBelow(a, a.left[i], l, x, n) else PathBelow(a, a.right[i], r, x, n)
  }

  /** The answer with any number n in place of the number of nodes: the leaf's label if and only if the
      nodes on the path have indices below n and the leaf is not too deep, and 0 otherwise. */
  lemma {:induction false} AnswerNeedsCount(a: Arrays, nodes: seq<Node>, n: nat, x: seq<nat>, i: int, t: Tree, budget: nat)
    requires ValidArrays(a) && |x| == MAX_FEATURES && |a.left| <= |nodes|
    requires forall j :: 0 <= j < |a.left| ==> Converted(a, j, nodes[j])
    requires Represents(a, i, t)
    ensures Walk(nodes, n, x, i, budget) == if FixedDepth(t, x) < budget && PathBelow(a, i, t, x, n) then FixedLabel(t, x) else 0
    decreases t
  {
    if budget > 0 && i < n {
      assert Converted(a, i, nodes[i]);
      match t
      case Leaf(l) => IsArgMaxUnique(a.weights[i], l, nodes[i].cls);
      case Split(f, th, l, r) =>
        if x[f] <= FixedFromFloat(th) {
          AnswerNeedsCount(a, nodes, n, x, a.left[i], l, budget - 1);
        } else {
          AnswerNeedsCount(a, nodes, n, x, a.right[i], r, budget - 1);
        }
    }
  }
}
