/** BTF type records and the comparisons and signature hashes that deduplication uses.

    A record is the three-word `struct btf_type` plus its kind-specific tail.  Tail words are kept in
    three groups: string offsets (`names`), type ids (`refs`, in the order in which type ids are visited)
    and everything else (`words`).  When the third word of the record is a type id it is `refs[0]` and
    `size` is 0. */
module Btf {
  import opened Numbers

  datatype Kind =
    | Void | Int | Ptr | Array | Struct | Union | Enum | Fwd | Typedef | Volatile
    | Const | Restrict | Func | FuncProto | Var | Datasec | Float | DeclTag | TypeTag | Enum64

  datatype Type = Type(kind: Kind, kflag: bool, spare: nat, vlen: nat, name: nat, size: nat,
                       names: seq<nat>, words: seq<nat>, refs: seq<nat>)

  const VOID := Type(Void, false, 0, 0, 0, 0, [], [], [])

  const MAX_NR_TYPES := 0x7fff_ffff
  const UNPROCESSED_ID := 0xffff_ffff
  const IN_PROGRESS_ID := 0xffff_fffe

  // ----- Kind classes ----------------------------------------------------------------------------

  predicate IsComposite(t: Type) { t.kind == Struct || t.kind == Union }

  predicate IsAnyEnum(t: Type) { t.kind == Enum || t.kind == Enum64 }

  predicate IsEnumFwd(t: Type) { IsAnyEnum(t) && t.vlen == 0 }

  /** Kinds that hold one type id in the third word and nothing else. */
  predicate IsModifier(t: Type) {
    t.kind == Const || t.kind == Volatile || t.kind == Restrict || t.kind == Ptr ||
    t.kind == Typedef || t.kind == Func || t.kind == TypeTag
  }

  /** Kinds deduplicated by the reference pass. */
  predicate IsRef(t: Type) {
    IsModifier(t) || t.kind == DeclTag || t.kind == Array || t.kind == FuncProto
  }

  /** Kinds deduplicated by the primitive pass. */
  predicate IsPrim(t: Type) {
    t.kind == Int || t.kind == Float || t.kind == Fwd || IsAnyEnum(t)
  }

  /** Kinds that are never deduplicated. */
  predicate IsPinned(t: Type) { t.kind == Var || t.kind == Datasec }

  /** Declarations that deduplication may resolve to a fuller definition. */
  predicate IsForward(t: Type) { t.kind == Fwd || IsEnumFwd(t) }

  function FwdKind(t: Type): Kind { if t.kflag then Union else Struct }

  /** The third word of the record is a type id rather than a size. */
  predicate HasTypeWord(t: Type) {
    IsModifier(t) || t.kind == Fwd || t.kind == DeclTag || t.kind == FuncProto || t.kind == Var
  }

  // ----- Well-formed records and graphs ----------------------------------------------------------

  function RefCount(t: Type): nat {
    match t.kind
    case Void | Int | Float | Enum | Enum64 => 0
    case Array => 2
    case Struct | Union | Datasec => t.vlen
    case FuncProto => 1 + t.vlen
    case _ => 1
  }

  function NameCount(t: Type): nat {
    match t.kind
    case Struct | Union | Enum | Enum64 | FuncProto => t.vlen
    case _ => 0
  }

  function WordCount(t: Type): nat {
    match t.kind
    case Int | Array | Var | DeclTag => 1
    case Struct | Union | Enum => t.vlen
    case Enum64 | Datasec => 2 * t.vlen
    case _ => 0
  }

  predicate WellFormed(t: Type) {
    && |t.refs| == RefCount(t)
    && |t.names| == NameCount(t)
    && |t.words| == WordCount(t)
    && (HasTypeWord(t) ==> t.size == 0)
  }

  /** A type graph: id 0 is void, every other record is a real one and every type id exists. */
  ghost predicate ValidGraph(g: seq<Type>) {
    && 0 < |g| <= MAX_NR_TYPES
    && g[0] == VOID
    && (forall i :: 0 <= i < |g| ==> WellFormed(g[i]))
    && (forall i :: 0 < i < |g| ==> g[i].kind != Void)
    && ClosedRefs(g)
  }

  ghost predicate ClosedRefs(g: seq<Type>) {
    forall i, k :: 0 <= i < |g| && 0 <= k < |g[i].refs| ==> g[i].refs[k] < |g|
  }

  lemma WellFormedAt(g: seq<Type>, i: nat)
    requires ValidGraph(g) && i < |g|
    ensures WellFormed(g[i]) && (g[i].kind == Void ==> i == 0)
  {
  }

  ghost predicate NoForwards(g: seq<Type>) {
    forall i :: 0 <= i < |g| ==> !IsForward(g[i])
  }

  /** Chains of reference types end: every cycle of the graph passes through a composite. */
  ghost predicate HeightOk(g: seq<Type>, height: seq<nat>)
    requires ClosedRefs(g)
  {
    && |height| == |g|
    && forall i, k :: 0 <= i < |g| && 0 <= k < |g[i].refs| && IsRef(g[i]) && IsRef(g[g[i].refs[k]]) ==> height[g[i].refs[k]] < height[i]
  }

  // ----- Record comparisons ----------------------------------------------------------------------

  function ThirdWord(t: Type): nat {
    if HasTypeWord(t) && |t.refs| > 0 then t.refs[0] else t.size
  }

  predicate EqualInfo(a: Type, b: Type) {
    a.kind == b.kind && a.kflag == b.kflag && a.spare == b.spare && a.vlen == b.vlen
  }

  predicate EqualCommon(a: Type, b: Type) {
    a.name == b.name && EqualInfo(a, b) && ThirdWord(a) == ThirdWord(b)
  }

  predicate EqualIntTag(a: Type, b: Type) {
    EqualCommon(a, b) && a.words == b.words
  }

  predicate EqualEnum(a: Type, b: Type) {
    EqualCommon(a, b) && a.names == b.names && a.words == b.words
  }

  predicate CompatEnum(a: Type, b: Type) {
    if !IsEnumFwd(a) && !IsEnumFwd(b) then EqualEnum(a, b)
    else a.name == b.name && IsAnyEnum(a) && IsAnyEnum(b)
  }

  predicate ShallowEqualStruct(a: Type, b: Type) {
    EqualCommon(a, b) && a.names == b.names && a.words == b.words
  }

  predicate EqualArray(a: Type, b: Type) {
    EqualCommon(a, b) && a.refs == b.refs && a.words == b.words
  }

  predicate CompatArray(a: Type, b: Type) {
    EqualCommon(a, b) && a.words == b.words
  }

  predicate EqualFuncProto(a: Type, b: Type) {
    EqualCommon(a, b) && a.names == b.names && a.refs == b.refs
  }

  predicate CompatFuncProto(a: Type, b: Type) {
    a.name == b.name && EqualInfo(a, b) && a.names == b.names
  }

  /** The comparison the reference and primitive passes use for a record of t's kind. */
  predicate EqualByKind(t: Type, cand: Type) {
    match t.kind
    case Int | DeclTag => EqualIntTag(t, cand)
    case Enum | Enum64 => EqualEnum(t, cand)
    case Array => EqualArray(t, cand)
    case FuncProto => EqualFuncProto(t, cand)
    case _ => EqualCommon(t, cand)
  }

  /** Everything in a record except the types it refers to. */
  function Label(t: Type): Type { t.(refs := []) }

  /** The kind-specific comparison is equality of whole records. */
  lemma EqualByKindIsEquality(a: Type, b: Type)
    requires WellFormed(a) && WellFormed(b)
    requires IsPrim(a) || IsRef(a)
    ensures EqualByKind(a, b) <==> a == b
  {
    if EqualByKind(a, b) {
      assert a.refs == b.refs by {
        if |a.refs| == 1 { assert a.refs == [a.refs[0]] && b.refs == [b.refs[0]]; }
      }
      assert a.names == b.names && a.words == b.words;
    }
  }

  // ----- Signature hashes ------------------------------------------------------------------------

  /** Two's complement wrap-around of the C `long`. */
  function Wrap64(x: int): int {
    var m := x % TWO64;
    if m < TWO63 then m else m - TWO64
  }

  function HashCombine(h: int, value: int): int { Wrap64(h * 31 + value) }

  function HashWords(h: int, ws: seq<nat>): int
    decreases |ws|
  {
    if ws == [] then h else HashWords(HashCombine(h, ws[0]), ws[1..])
  }

  /** Hashes two parallel lists element by element: a[0], b[0], a[1], b[1], ... */
  function HashPairs(h: int, a: seq<nat>, b: seq<nat>): int
    decreases |a|
  {
    if a == [] || b == [] then h
    else HashPairs(HashCombine(HashCombine(h, a[0]), b[0]), a[1..], b[1..])
  }

  function KindNumber(k: Kind): nat {
    match k
    case Void => 0 case Int => 1 case Ptr => 2 case Array => 3 case Struct => 4
    case Union => 5 case Enum => 6 case Fwd => 7 case Typedef => 8 case Volatile => 9
    case Const => 10 case Restrict => 11 case Func => 12 case FuncProto => 13 case Var => 14
    case Datasec => 15 case Float => 16 case DeclTag => 17 case TypeTag => 18 case Enum64 => 19
  }

  /** The second word of the record: the spare bits lie on both sides of the kind. */
  function Info(t: Type): nat {
    t.vlen + t.spare % 0x100 * 0x1_0000 + KindNumber(t.kind) * 0x100_0000 + t.spare / 0x100 * 0x2000_0000 +
    (if t.kflag then 0x8000_0000 else 0)
  }

  function HashCommon(t: Type): int {
    HashCombine(HashCombine(HashCombine(0, t.name), Info(t)), ThirdWord(t))
  }

  function HashIntTag(t: Type): int { HashWords(HashCommon(t), t.words) }

  function HashEnum(t: Type): int { HashCombine(0, t.name) }

  function HashStruct(t: Type): int { HashPairs(HashCommon(t), t.names, t.words) }

  function HashArray(t: Type): int { HashWords(HashWords(HashCommon(t), t.refs), t.words) }

  function HashFuncProto(t: Type): int
  {
    if |t.refs| == 0 then HashCommon(t) else HashPairs(HashCommon(t), t.names, t.refs[1..])
  }

  function HashOf(t: Type): int {
    match t.kind
    case Int | DeclTag => HashIntTag(t)
    case Enum | Enum64 => HashEnum(t)
    case Struct | Union => HashStruct(t)
    case Array => HashArray(t)
    case FuncProto => HashFuncProto(t)
    case _ => HashCommon(t)
  }
}
