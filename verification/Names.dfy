/** The map from names to representative composites that resolves forward declarations. */
module Names {
  import opened Btf
  import opened HashMaps

  predicate RepresentsName(g: seq<Type>, m: seq<nat>, i: nat, n: int)
    requires |m| == |g| && i < |g|
  {
    IsComposite(g[i]) && m[i] == i && g[i].name == n
  }

  /** v is the only representative composite below p named n. */
  ghost predicate OnlyBelow(g: seq<Type>, m: seq<nat>, p: nat, n: int, v: nat)
    requires |m| == |g| && p <= |g|
  {
    v < p && RepresentsName(g, m, v, n) && forall i :: 0 <= i < p && RepresentsName(g, m, i, n) ==> i == v
  }

  /** The chain of name n after visiting the ids below p: empty, the unique representative, or 0 when the
      name is shared. */
  ghost predicate NameOk(g: seq<Type>, m: seq<nat>, p: nat, n: int, chain: seq<Entry>)
    requires |m| == |g| && p <= |g|
  {
    if chain == [] then forall i :: 0 <= i < p ==> !RepresentsName(g, m, i, n)
    else
      && |chain| == 1 && chain[0].key == n && chain[0].value >= 0
      && (if chain[0].value != 0 then OnlyBelow(g, m, p, n, chain[0].value)
          else exists i, j :: 0 <= i < j < p && RepresentsName(g, m, i, n) && RepresentsName(g, m, j, n))
  }

  ghost predicate NamesOk(g: seq<Type>, m: seq<nat>, p: nat, bs: seq<seq<Entry>>, ops: KeyOps<int>)
    requires |m| == |g| && p <= |g|
  {
    forall n: int :: NameOk(g, m, p, n, KeyChain(bs, ops, n))
  }

  lemma NameSkip(g: seq<Type>, m: seq<nat>, p: nat, n: int, chain: seq<Entry>)
    requires |m| == |g| && p < |g| && NameOk(g, m, p, n, chain) && !RepresentsName(g, m, p, n)
    ensures NameOk(g, m, p + 1, n, chain)
  {
  }

  lemma NameFirst(g: seq<Type>, m: seq<nat>, p: nat, n: int)
    requires |m| == |g| && 0 < p < |g| && NameOk(g, m, p, n, []) && RepresentsName(g, m, p, n)
    ensures NameOk(g, m, p + 1, n, [Entry(n, p)])
  {
  }

  lemma NameShared(g: seq<Type>, m: seq<nat>, p: nat, n: int, chain: seq<Entry>)
    requires |m| == |g| && 0 < p < |g| && chain != [] && NameOk(g, m, p, n, chain) && RepresentsName(g, m, p, n)
    ensures NameOk(g, m, p + 1, n, [Entry(n, 0)])
  {
    var v := chain[0].value;
    if v != 0 { assert RepresentsName(g, m, v, n); }
  }

  /** What becomes of the link of id: a forward declaration that represents itself goes to the only
      representative composite of its name, if there is one and it is of the declared kind. */
  ghost predicate ResolvedTo(g: seq<Type>, m: seq<nat>, id: nat, link: nat)
    requires |m| == |g| && id < |g|
  {
    if g[id].kind == Fwd && m[id] == id && (exists v: nat :: OnlyBelow(g, m, |g|, g[id].name, v) && g[v].kind == FwdKind(g[id]))
    then OnlyBelow(g, m, |g|, g[id].name, link) && g[link].kind == FwdKind(g[id])
    else link == m[id]
  }

  /** One more representative filed: its own chain becomes its entry or the shared mark, others stay. */
  lemma AddedName(g: seq<Type>, m: seq<nat>, p: nat, c: int, chain: seq<Entry>, chain': seq<Entry>)
    requires |m| == |g| && 0 < p < |g| && RepresentsName(g, m, p, g[p].name) && NameOk(g, m, p, c, chain)
    requires c == g[p].name ==> chain' == if chain == [] then [Entry(c, p)] else [Entry(c, 0)]
    requires c != g[p].name ==> chain' == chain
    ensures NameOk(g, m, p + 1, c, chain')
  {
    if c != g[p].name { NameSkip(g, m, p, c, chain); }
    else if chain == [] { NameFirst(g, m, p, c); }
    else { NameShared(g, m, p, c, chain); }
  }

  /** The two insertions that file representative p leave name c in order. */
  lemma AddThenSet(g: seq<Type>, m: seq<nat>, p: nat, c: int, chain: seq<Entry>, present: bool, grew: bool, grew': bool)
    requires |m| == |g| && 0 < p < |g| && RepresentsName(g, m, p, g[p].name) && NameOk(g, m, p, c, chain)
    requires c == g[p].name ==> present == (chain != [])
    ensures var chain1 := ChainAfterInsert(chain, c == g[p].name, Entry(g[p].name, p), Add, present, grew);
            var chain2 := ChainAfterInsert(chain1, c == g[p].name, Entry(g[p].name, 0), Set, true, grew');
            NameOk(g, m, p + 1, c, if present then chain2 else chain1)
  {
    ReverseShort(chain);
    var n := g[p].name;
    var same := c == n;
    if !present {
      var chain1 := ChainAfterInsert(chain, same, Entry(n, p), Add, present, grew);
      assert chain1 == if same then [Entry(n, p)] else chain;
      AddedName(g, m, p, c, chain, chain1);
    } else {
      AddedName(g, m, p, c, chain, if same then [Entry(n, 0)] else chain);
    }
  }

  lemma NoNames(g: seq<Type>, m: seq<nat>, ops: KeyOps<int>)
    requires |m| == |g| && |g| > 0 && !IsComposite(g[0])
    ensures NamesOk(g, m, 1, [], ops)
  {
    assert forall n: int :: KeyChain([], ops, n) == [];
  }

  lemma SkipName(g: seq<Type>, m: seq<nat>, p: nat, bs: seq<seq<Entry>>, ops: KeyOps<int>)
    requires |m| == |g| && p < |g| && NamesOk(g, m, p, bs, ops) && !(IsComposite(g[p]) && m[p] == p)
    ensures NamesOk(g, m, p + 1, bs, ops)
  {
    forall n: int ensures NameOk(g, m, p + 1, n, KeyChain(bs, ops, n)) {
      NameSkip(g, m, p, n, KeyChain(bs, ops, n));
    }
  }

  /** From m0 to m, exactly the ids from start to p have been resolved by name. */
  ghost predicate FwdsResolved(g: seq<Type>, m0: seq<nat>, m: seq<nat>, start: nat, p: nat)
    requires |m0| == |m| == |g|
  {
    && (forall i :: start <= i < p && i < |g| ==> ResolvedTo(g, m0, i, m[i]))
    && (forall i :: 0 <= i < |g| && !(start <= i < p) ==> m[i] == m0[i])
  }

  /** No forward declaration from start on that represents itself has a definition that is the only
      representative composite of its name. */
  ghost predicate NoneResolvable(g: seq<Type>, m: seq<nat>, start: nat)
    requires |m| == |g|
  {
    forall i, v: nat :: start <= i < |g| && g[i].kind == Fwd && m[i] == i && OnlyBelow(g, m, |g|, g[i].name, v) ==> g[v].kind != FwdKind(g[i])
  }

  lemma SameNames(g: seq<Type>, m0: seq<nat>, m: seq<nat>, n: int, v: nat)
    requires |m0| == |m| == |g| && (forall i :: 0 <= i < |g| && IsComposite(g[i]) ==> m[i] == m0[i])
    requires OnlyBelow(g, m, |g|, n, v)
    ensures OnlyBelow(g, m0, |g|, n, v)
  {
    assert forall i :: 0 <= i < |g| && RepresentsName(g, m0, i, n) ==> RepresentsName(g, m, i, n);
  }

  /** Resolving by name leaves nothing to resolve by name. */
  lemma ResolvedLeavesNone(g: seq<Type>, m0: seq<nat>, m: seq<nat>, start: nat)
    requires |m0| == |m| == |g| && FwdsResolved(g, m0, m, start, |g|)
    ensures NoneResolvable(g, m, start)
  {
    forall i | 0 <= i < |g| && IsComposite(g[i]) ensures m[i] == m0[i] {
      if start <= i { assert ResolvedTo(g, m0, i, m[i]); }
    }
    forall i, v: nat | start <= i < |g| && g[i].kind == Fwd && m[i] == i && OnlyBelow(g, m, |g|, g[i].name, v)
      ensures g[v].kind != FwdKind(g[i])
    {
      assert ResolvedTo(g, m0, i, m[i]);
      SameNames(g, m0, m, g[i].name, v);
    }
  }

  /** Only the links of composites and forward declarations matter. */
  lemma NoneResolvableStays(g: seq<Type>, m0: seq<nat>, m: seq<nat>, start: nat)
    requires |m0| == |m| == |g| && NoneResolvable(g, m0, start)
    requires forall i :: 0 <= i < |g| && (IsComposite(g[i]) || g[i].kind == Fwd) ==> m[i] == m0[i]
    ensures NoneResolvable(g, m, start)
  {
    forall i, v: nat | start <= i < |g| && g[i].kind == Fwd && m[i] == i && OnlyBelow(g, m, |g|, g[i].name, v)
      ensures g[v].kind != FwdKind(g[i])
    {
      SameNames(g, m0, m, g[i].name, v);
    }
  }

  lemma EmptyTableValid(ops: KeyOps<int>)
    ensures ValidTable(ops, [], 0, 0, 0)
  {
  }
}
