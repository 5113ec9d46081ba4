/** Reading and writing the bytes of BTF data in either byte order (btf.c). */
module TypeSections {
  import opened Numbers
  import opened Bytes
  import opened Btf

  const BASE_SZ := 12
  const HEADER_SZ := 24
  const MAGIC := 0xeB9F
  const SWAPPED_MAGIC := 0x9FeB
  const MAX_STR_OFFSET := 0x7fff_ffff

  // ----- Words ------------------------------------------------------------------------------------

  /** A multiple of four. */
  predicate IsWord(n: int) { n % 4 == 0 }

  lemma Fours(k: int)
    ensures IsWord(4 * k)
  {
  }

  lemma WordSum(a: int, b: int)
    requires IsWord(a)
    ensures IsWord(a + b) <==> IsWord(b)
  {
    var q := a / 4;
    assert a == 4 * q && b == 4 * (b / 4) + b % 4;
    assert a + b == 4 * (q + b / 4) + b % 4;
  }

  /** Where the last whole word ends. */
  function LastWord(base: nat, end: nat): (r: nat)
    requires base <= end
    ensures base <= r <= end
  {
    base + (end - base) / 4 * 4
  }

  lemma LastWordIsWord(base: nat, end: nat)
    requires base <= end && IsWord(base)
    ensures IsWord(LastWord(base, end)) && (IsWord(end) ==> LastWord(base, end) == end)
    ensures forall mid {:trigger IsWord(mid)} :: base <= mid <= end && IsWord(mid) ==> mid <= LastWord(base, end)
  {
    var n := end - base;
    assert n == 4 * (n / 4) + n % 4;
    WordSum(base, 4 * (n / 4));
    Fours(n / 4);
    WordSum(base, n);
    forall mid | base <= mid <= end && IsWord(mid) ensures mid <= LastWord(base, end) {
      WordSum(base, mid - base);
      assert mid - base == 4 * ((mid - base) / 4);
    }
  }

  // ----- Records ----------------------------------------------------------------------------------

  /** The kind with a given code; codes that stand for no kind of record are read as Void. */
  function KindOf(code: nat): Kind {
    match code
    case 1 => Int
    case 2 => Ptr
    case 3 => Array
    case 4 => Struct
    case 5 => Union
    case 6 => Enum
    case 7 => Fwd
    case 8 => Typedef
    case 9 => Volatile
    case 10 => Const
    case 11 => Restrict
    case 12 => Func
    case 13 => FuncProto
    case 14 => Var
    case 15 => Datasec
    case 16 => Float
    case 17 => DeclTag
    case 18 => TypeTag
    case 19 => Enum64
    case _ => Void
  }

  /** Kind and length as the second word of a record holds them. */
  function InfoKind(info: nat): Kind { KindOf(info / 0x100_0000 % 32) }

  function InfoVlen(info: nat): nat { info % 0x1_0000 }

  /** Words that follow the first three of a record. */
  function TailWords(kind: Kind, vlen: nat): nat {
    match kind
    case Int | Var | DeclTag => 1
    case Array => 3
    case Enum | FuncProto => vlen * 2
    case Struct | Union | Datasec | Enum64 => vlen * 3
    case _ => 0
  }

  /** The words of the tail are the names, other words and type ids of the type, except for the type id in
      the third word. */
  lemma TailWordsAreFields(t: Type)
    requires WellFormed(t) && t.kind != Void
    ensures TailWords(t.kind, t.vlen) == |t.names| + |t.words| + |t.refs| - (if HasTypeWord(t) then 1 else 0)
  {
  }

  /** Codes and kinds correspond. */
  lemma KindCodes(k: Kind, code: nat)
    ensures KindOf(KindNumber(k)) == k
    ensures KindOf(code) != Void ==> KindNumber(KindOf(code)) == code
    ensures KindOf(code) != Void <==> 1 <= code <= 19
  {
  }

  /** The size of a record in bytes, from its second word. */
  function TypeSize(info: nat): int {
    if InfoKind(info) == Void then EINVAL else BASE_SZ + 4 * TailWords(InfoKind(info), InfoVlen(info))
  }

  function SizeAt(s: seq<byte>, o: nat): int
    requires o + BASE_SZ <= |s|
  {
    TypeSize(Le32(s, o + 4))
  }

  /** A whole record lies at o, before end. */
  predicate RecordAt(s: seq<byte>, o: nat, end: nat) {
    o + BASE_SZ <= end <= |s| && SizeAt(s, o) >= 0 && o + SizeAt(s, o) <= end
  }

  lemma SizeIsWords(info: nat)
    ensures TypeSize(info) == EINVAL || (TypeSize(info) >= BASE_SZ && IsWord(TypeSize(info)))
  {
    hide InfoKind, InfoVlen, TailWords, IsWord;
    Fours(3 + TailWords(InfoKind(info), InfoVlen(info)));
  }

  /** The records whose offsets from base are offs tile the bytes from o to end, without a gap. */
  predicate Tiles(s: seq<byte>, offs: seq<nat>, base: nat, o: nat, end: nat)
    decreases |offs|
  {
    base <= o <= end <= |s| &&
    if offs == [] then o == end
    else offs[0] == o - base && RecordAt(s, o, end) && Tiles(s, offs[1..], base, o + SizeAt(s, o), end)
  }

  ghost predicate Tileable(s: seq<byte>, base: nat, o: nat, end: nat) { exists offs :: Tiles(s, offs, base, o, end) }

  /** Where a section can be tiled, its first record is whole and what follows can be tiled. */
  lemma TileableStep(s: seq<byte>, base: nat, o: nat, end: nat)
    requires base <= o <= end <= |s|
    ensures o == end ==> Tileable(s, base, o, end)
    ensures o < end ==> (Tileable(s, base, o, end) <==> RecordAt(s, o, end) && Tileable(s, base, o + SizeAt(s, o), end))
  {
    if o == end {
      assert Tiles(s, [], base, o, end);
    } else {
      if Tileable(s, base, o, end) {
        var offs :| Tiles(s, offs, base, o, end);
        assert Tiles(s, offs[1..], base, o + SizeAt(s, o), end);
      }
      if RecordAt(s, o, end) && Tileable(s, base, o + SizeAt(s, o), end) {
        var offs :| Tiles(s, offs, base, o + SizeAt(s, o), end);
        assert ([o - base] + offs)[1..] == offs;
        assert Tiles(s, [o - base] + offs, base, o, end);
      }
    }
  }

  /** What is left to tile from record i on. */
  lemma TilesLast(s: seq<byte>, offs: seq<nat>, base: nat, o: nat, end: nat, i: nat)
    requires i <= |offs| && Tiles(s, offs[i..], base, o, end)
    ensures base <= o <= end <= |s|
    ensures i == |offs| ==> o == end
    ensures i < |offs| ==> offs[i] == o - base && RecordAt(s, o, end) && o + SizeAt(s, o) <= end && Tiles(s, offs[i + 1..], base, o + SizeAt(s, o), end)
  {
    if i < |offs| { assert offs[i..][0] == offs[i] && offs[i..][1..] == offs[i + 1..]; }
  }

  lemma {:induction false} TilesAppend(s: seq<byte>, offs: seq<nat>, base: nat, o: nat, mid: nat, end: nat)
    requires Tiles(s, offs, base, o, mid) && RecordAt(s, mid, end)
    ensures Tiles(s, offs + [mid - base], base, o, mid + SizeAt(s, mid))
    decreases |offs|
  {
    SizeIsWords(Le32(s, mid + 4));
    if offs != [] {
      assert (offs + [mid - base])[1..] == offs[1..] + [mid - base];
      TilesAppend(s, offs[1..], base, o + SizeAt(s, o), mid, end);
    } else {
      assert (offs + [mid - base])[1..] == [];
    }
  }

  /** Tiling only depends on the bytes tiled, wherever they are. */
  lemma {:induction false} TilesMoved(s: seq<byte>, s': seq<byte>, offs: seq<nat>, base: nat, base': nat, k: nat, len: nat)
    requires Tiles(s, offs, base, base + k, base + len) && base' + len <= |s'| && s'[base'..base' + len] == s[base..base + len]
    ensures Tiles(s', offs, base', base' + k, base' + len)
    decreases |offs|
  {
    if offs != [] {
      SameInfo(s, s', base, base', k, len);
      TilesMoved(s, s', offs[1..], base, base', k + SizeAt(s, base + k), len);
    }
  }

  lemma SameInfo(s: seq<byte>, s': seq<byte>, base: nat, base': nat, k: nat, len: nat)
    requires base + len <= |s| && base' + len <= |s'| && s'[base'..base' + len] == s[base..base + len] && k + BASE_SZ <= len
    ensures SizeAt(s', base' + k) == SizeAt(s, base + k)
  {
    SameByte(s, s', base, base', len, k + 4);
    SameByte(s, s', base, base', len, k + 5);
    SameByte(s, s', base, base', len, k + 6);
    SameByte(s, s', base, base', len, k + 7);
  }

  lemma SameByte(s: seq<byte>, s': seq<byte>, base: nat, base': nat, len: nat, j: nat)
    requires base + len <= |s| && base' + len <= |s'| && s'[base'..base' + len] == s[base..base + len] && j < len
    ensures s'[base' + j] == s[base + j]
  {
    assert s'[base'..base' + len][j] == s[base..base + len][j];
  }

  lemma {:induction false} TilesAligned(s: seq<byte>, offs: seq<nat>, base: nat, o: nat, end: nat)
    requires Tiles(s, offs, base, o, end)
    ensures IsWord(end - o)
    decreases |offs|
  {
    if offs != [] {
      hide IsWord;
      SizeIsWords(Le32(s, o + 4));
      TilesAligned(s, offs[1..], base, o + SizeAt(s, o), end);
      WordSum(SizeAt(s, o), end - (o + SizeAt(s, o)));
    }
  }

  // ----- Changing the byte order ------------------------------------------------------------------

  /** The byte that a byte changes places with when words are swapped. */
  function Mirror(i: nat): int { i + 3 - 2 * (i % 4) }

  lemma MirrorIn(i: nat, lo: nat, hi: nat)
    requires IsWord(lo) && IsWord(hi) && lo <= i < hi
    ensures lo <= Mirror(i) < hi && Mirror(Mirror(i)) == i
  {
    var q, r := i / 4, i % 4;
    assert i == 4 * q + r && Mirror(i) == 4 * q + (3 - r);
    assert lo == 4 * (lo / 4) && hi == 4 * (hi / 4);
    assert (4 * q + (3 - r)) % 4 == 3 - r;
  }

  predicate Aligned(s: seq<byte>, lo: nat, hi: nat) { lo <= hi <= |s| && IsWord(lo) && IsWord(hi) }

  /** s with the bytes of every word from lo to hi reversed. */
  function Swapped(s: seq<byte>, lo: nat, hi: nat): (r: seq<byte>)
    requires lo <= hi <= |s|
    ensures |r| == |s|
  {
    seq(|s|, i requires 0 <= i < |s| => if lo <= i < hi && lo <= Mirror(i) < hi then s[Mirror(i)] else s[i])
  }

  lemma SwappedAt(s: seq<byte>, lo: nat, hi: nat, i: nat)
    requires Aligned(s, lo, hi) && i < |s|
    ensures lo <= i < hi ==> lo <= Mirror(i) < hi && Swapped(s, lo, hi)[i] == s[Mirror(i)]
    ensures !(lo <= i < hi) ==> Swapped(s, lo, hi)[i] == s[i]
  {
    if lo <= i < hi { MirrorIn(i, lo, hi); }
  }

  /** Swapping twice changes nothing. */
  lemma SwappedTwice(s: seq<byte>, lo: nat, hi: nat)
    requires Aligned(s, lo, hi)
    ensures Swapped(Swapped(s, lo, hi), lo, hi) == s
  {
    hide Swapped, Mirror;
    var r := Swapped(Swapped(s, lo, hi), lo, hi);
    forall i | 0 <= i < |s| ensures r[i] == s[i] {
      SwappedAt(Swapped(s, lo, hi), lo, hi, i);
      if lo <= i < hi {
        MirrorIn(i, lo, hi);
        SwappedAt(s, lo, hi, Mirror(i));
      } else {
        SwappedAt(s, lo, hi, i);
      }
    }
  }

  /** Parts may be swapped one after the other, in either order. */
  lemma SwappedJoin(s: seq<byte>, lo: nat, mid: nat, hi: nat)
    requires Aligned(s, lo, mid) && Aligned(s, mid, hi)
    ensures Swapped(Swapped(s, lo, mid), mid, hi) == Swapped(s, lo, hi) == Swapped(Swapped(s, mid, hi), lo, mid)
  {
    hide Swapped, Mirror;
    forall i | 0 <= i < |s| ensures Swapped(Swapped(s, lo, mid), mid, hi)[i] == Swapped(s, lo, hi)[i] == Swapped(Swapped(s, mid, hi), lo, mid)[i] {
      SwappedAt(s, lo, hi, i);
      SwappedAt(Swapped(s, lo, mid), mid, hi, i);
      SwappedAt(Swapped(s, mid, hi), lo, mid, i);
      SwappedAt(s, lo, mid, i);
      SwappedAt(s, mid, hi, i);
      if mid <= i < hi { SwappedAt(s, lo, mid, Mirror(i)); }
      if lo <= i < mid { SwappedAt(s, mid, hi, Mirror(i)); }
    }
  }

  lemma SwappedNone(s: seq<byte>, lo: nat)
    requires Aligned(s, lo, lo)
    ensures Swapped(s, lo, lo) == s
  {
  }

  /** Bytes outside what is swapped stay; bytes inside do not depend on how much else is swapped. */
  lemma SwappedParts(s: seq<byte>, lo: nat, mid: nat, hi: nat)
    requires Aligned(s, lo, mid) && Aligned(s, mid, hi)
    ensures Swapped(s, lo, hi)[..mid] == Swapped(s, lo, mid)[..mid]
    ensures Swapped(s, lo, mid)[mid..] == s[mid..] && Swapped(s, lo, mid)[..lo] == s[..lo]
  {
    hide Swapped, Mirror;
    var a, b := Swapped(s, lo, hi), Swapped(s, lo, mid);
    forall i | 0 <= i < |s| ensures (i < mid ==> a[i] == b[i]) && (i >= mid || i < lo ==> b[i] == s[i]) {
      SwappedAt(s, lo, hi, i);
      SwappedAt(s, lo, mid, i);
    }
  }

  /** Reverses the bytes of one word. */
  method SwapWord(a: array<byte>, o: nat)
    requires IsWord(o) && o + 4 <= a.Length
    modifies a
    ensures a[..] == Swapped(old(a[..]), o, o + 4)
  {
    ghost var s := a[..];
    a[o], a[o + 1], a[o + 2], a[o + 3] := a[o + 3], a[o + 2], a[o + 1], a[o];
    WordSwapped(s, a[..], o);
  }

  lemma WordSwapped(s: seq<byte>, r: seq<byte>, o: nat)
    requires IsWord(o) && o + 4 <= |s| == |r|
    requires forall i :: 0 <= i < |s| && !(o <= i < o + 4) ==> r[i] == s[i]
    requires r[o] == s[o + 3] && r[o + 1] == s[o + 2] && r[o + 2] == s[o + 1] && r[o + 3] == s[o]
    ensures r == Swapped(s, o, o + 4)
  {
    hide Swapped;
    forall i | 0 <= i < |s| ensures r[i] == Swapped(s, o, o + 4)[i] {
      SwappedAt(s, o, o + 4, i);
    }
  }

  /** Swaps n words, one after the other. */
  method SwapWords(a: array<byte>, o: nat, n: nat)
    requires IsWord(o) && o + 4 * n <= a.Length
    modifies a
    ensures a[..] == Swapped(old(a[..]), o, o + 4 * n)
  {
    hide Swapped;
    ghost var s := a[..];
    SwappedNone(s, o);
    var i := 0;
    while i < n
      invariant 0 <= i <= n && a[..] == Swapped(s, o, o + 4 * i)
    {
      WordAligned(o, i);
      SwapWord(a, o + 4 * i);
      SwappedJoin(s, o, o + 4 * i, o + 4 * (i + 1));
      i := i + 1;
    }
  }

  lemma WordAligned(o: nat, i: nat)
    requires IsWord(o)
    ensures IsWord(o + 4 * i)
  {
    hide IsWord;
    Fours(i);
    WordSum(o, 4 * i);
  }

  /** Swaps the first three words of a record. */
  method SwapBase(a: array<byte>, o: nat)
    requires IsWord(o) && o + BASE_SZ <= a.Length
    modifies a
    ensures a[..] == Swapped(old(a[..]), o, o + BASE_SZ)
  {
    SwapWords(a, o, 3);
  }

  /** Swaps every word of n items. */
  method SwapItems(a: array<byte>, o: nat, n: nat, fields: nat)
    requires IsWord(o) && o + 4 * (n * fields) <= a.Length
    modifies a
    ensures a[..] == Swapped(old(a[..]), o, o + 4 * (n * fields))
  {
    hide Swapped;
    ghost var s := a[..];
    SwappedNone(s, o);
    var i := 0;
    while i < n
      invariant 0 <= i <= n && i * fields <= n * fields && a[..] == Swapped(s, o, o + 4 * (i * fields))
    {
      NextItem(i, n, fields);
      WordAligned(o, i * fields);
      WordAligned(o, (i + 1) * fields);
      SwapWords(a, o + 4 * (i * fields), fields);
      SwappedJoin(s, o, o + 4 * (i * fields), o + 4 * ((i + 1) * fields));
      i := i + 1;
    }
  }

  lemma NextItem(i: nat, n: nat, fields: nat)
    requires i < n
    ensures (i + 1) * fields == i * fields + fields <= n * fields
  {
    var rest := n - i - 1;
    assert n * fields == (i + 1) * fields + rest * fields;
  }

  /** Swaps what follows the first three words of a record; these have to be in native order. */
  method SwapRest(a: array<byte>, o: nat) returns (err: int)
    requires IsWord(o) && o + BASE_SZ <= a.Length && o + SizeAt(a[..], o) <= a.Length
    modifies a
    ensures err == (if old(SizeAt(a[..], o)) >= 0 then 0 else EINVAL)
    ensures err != 0 ==> a[..] == old(a[..])
    ensures err == 0 ==> IsWord(old(SizeAt(a[..], o))) && a[..] == Swapped(old(a[..]), o + BASE_SZ, o + old(SizeAt(a[..], o)))
  {
    hide Swapped;
    var info := Le32(a[..], o + 4);
    var vlen := InfoVlen(info);
    SizeIsWords(info);
    WordAligned(o, 3);
    err := 0;
    match InfoKind(info)
    case Fwd | Const | Volatile | Restrict | Ptr | Typedef | Func | Float | TypeTag =>
      SwappedNone(a[..], o + BASE_SZ);
    case Int | Var | DeclTag => SwapWord(a, o + BASE_SZ);
    case Array => SwapWords(a, o + BASE_SZ, 3);
    case Enum | FuncProto => SwapItems(a, o + BASE_SZ, vlen, 2);
    case Struct | Union | Enum64 | Datasec => SwapItems(a, o + BASE_SZ, vlen, 3);
    case Void => err := EINVAL;
  }

  // ----- Parsing the type section -----------------------------------------------------------------

  /** s with the type section in native order; bytes behind the last whole word stay. */
  function NativeTypes(s: seq<byte>, base: nat, end: nat, swapped: bool): (r: seq<byte>)
    requires base <= end <= |s|
    ensures |r| == |s|
  {
    if swapped then Swapped(s, base, LastWord(base, end)) else s
  }

  /** The state while the section is parsed: everything before o is in native order and tiled. */
  ghost predicate Parsing(s0: seq<byte>, s: seq<byte>, offs: seq<nat>, base: nat, o: nat, end: nat, swapped: bool) {
    && base <= o <= end <= |s0| && (swapped ==> IsWord(base) && IsWord(o))
    && s == (if swapped then Swapped(s0, base, o) else s0)
    && Tiles(NativeTypes(s0, base, end, swapped), offs, base, base, o)
  }

  /** What is read at o once the first words are in native order is what native data has there. */
  lemma HeadRead(s0: seq<byte>, s: seq<byte>, base: nat, o: nat, end: nat, swapped: bool)
    requires base <= o && o + BASE_SZ <= end <= |s0| && (swapped ==> IsWord(base) && IsWord(o))
    requires swapped ==> IsWord(o + BASE_SZ) && s == Swapped(s0, base, o + BASE_SZ)
    requires !swapped ==> s == s0
    ensures |s| == |s0| && SizeAt(s, o) == SizeAt(NativeTypes(s0, base, end, swapped), o)
  {
    if swapped {
      hide Swapped, IsWord, LastWord, Le32, TypeSize;
      LastWordIsWord(base, end);
      var last, mid := LastWord(base, end), o + BASE_SZ;
      SwappedParts(s0, base, mid, last);
      var n := NativeTypes(s0, base, end, swapped);
      assert n[..mid] == s[..mid];
      SameInfo(n, s, 0, 0, o, mid);
    }
  }

  lemma ParseStarts(s0: seq<byte>, base: nat, end: nat, swapped: bool)
    requires base <= end <= |s0| && (swapped ==> IsWord(base))
    ensures Parsing(s0, s0, [], base, base, end, swapped)
  {
    if swapped { SwappedNone(s0, base); }
  }

  /** One more record is in native order. */
  lemma ParseStep(s0: seq<byte>, s: seq<byte>, offs: seq<nat>, base: nat, o: nat, end: nat, swapped: bool, size: nat)
    requires base <= o && o + BASE_SZ <= o + size <= end <= |s0| && (swapped ==> IsWord(base) && IsWord(o) && IsWord(o + size))
    requires s == if swapped then Swapped(s0, base, o + size) else s0
    requires Tiles(NativeTypes(s0, base, end, swapped), offs, base, base, o) && size == SizeAt(NativeTypes(s0, base, end, swapped), o)
    ensures Parsing(s0, s, offs + [o - base], base, o + size, end, swapped)
  {
    hide Swapped;
    TilesAppend(NativeTypes(s0, base, end, swapped), offs, base, base, o, end);
  }

  lemma ParseDone(s0: seq<byte>, s: seq<byte>, offs: seq<nat>, base: nat, end: nat, swapped: bool)
    requires Parsing(s0, s, offs, base, end, end, swapped)
    ensures s == NativeTypes(s0, base, end, swapped)
  {
    hide IsWord, LastWord, Swapped, Tiles;
    if swapped { LastWordIsWord(base, end); }
  }

  // ----- The header -------------------------------------------------------------------------------

  function HdrLen(s: seq<byte>): nat
    requires |s| >= HEADER_SZ
  {
    Le32(s, 4)
  }

  function TypeOff(s: seq<byte>): nat
    requires |s| >= HEADER_SZ
  {
    Le32(s, 8)
  }

  function TypeLen(s: seq<byte>): nat
    requires |s| >= HEADER_SZ
  {
    Le32(s, 12)
  }

  function StrOff(s: seq<byte>): nat
    requires |s| >= HEADER_SZ
  {
    Le32(s, 16)
  }

  function StrLen(s: seq<byte>): nat
    requires |s| >= HEADER_SZ
  {
    Le32(s, 20)
  }

  function TypesAt(s: seq<byte>): nat
    requires |s| >= HEADER_SZ
  {
    HdrLen(s) + TypeOff(s)
  }

  function TypesEnd(s: seq<byte>): nat
    requires |s| >= HEADER_SZ
  {
    TypesAt(s) + TypeLen(s)
  }

  function StrsAt(s: seq<byte>): nat
    requires |s| >= HEADER_SZ
  {
    HdrLen(s) + StrOff(s)
  }

  /** The sections lie inside the data, types before strings. */
  predicate SectionsFit(s: seq<byte>) {
    && |s| >= HEADER_SZ && HdrLen(s) <= |s| && StrOff(s) + StrLen(s) <= |s| - HdrLen(s)
    && TypeOff(s) + TypeLen(s) <= StrOff(s) && IsWord(TypeOff(s))
  }

  predicate IsSwapped(s: seq<byte>)
    requires |s| >= HEADER_SZ
  {
    Le16(s, 0) == SWAPPED_MAGIC
  }

  function HeaderSwapped(s: seq<byte>): (r: seq<byte>)
    requires |s| >= HEADER_SZ
    ensures |r| == |s|
  {
    Swapped([s[1], s[0]] + s[2..], 4, HEADER_SZ)
  }

  lemma HeaderAt(s: seq<byte>, i: nat)
    requires |s| >= HEADER_SZ && i < |s|
    ensures HeaderSwapped(s)[i] == if i == 0 then s[1] else if i == 1 then s[0] else if 4 <= i < HEADER_SZ then MirrorIn(i, 4, HEADER_SZ); s[Mirror(i)] else s[i]
  {
    var t := [s[1], s[0]] + s[2..];
    SwappedAt(t, 4, HEADER_SZ, i);
    if 4 <= i < HEADER_SZ { MirrorIn(i, 4, HEADER_SZ); }
  }

  lemma HeaderTwice(s: seq<byte>)
    requires |s| >= HEADER_SZ
    ensures HeaderSwapped(HeaderSwapped(s)) == s
  {
    var h := HeaderSwapped(s);
    hide HeaderSwapped, Mirror;
    forall i | 0 <= i < |s| ensures HeaderSwapped(h)[i] == s[i] {
      HeaderAt(h, i);
      if 4 <= i < HEADER_SZ {
        MirrorIn(i, 4, HEADER_SZ);
        HeaderAt(s, Mirror(i));
      } else if i < 2 {
        HeaderAt(s, 1 - i);
      } else {
        HeaderAt(s, i);
      }
    }
  }

  /** The header in native order. */
  function NativeHeader(s: seq<byte>): (r: seq<byte>)
    requires |s| >= HEADER_SZ
    ensures |r| == |s|
  {
    if IsSwapped(s) then HeaderSwapped(s) else s
  }

  /** Data with a header that can be read; swapped data has to have a header of the known length. */
  predicate Framed(s: seq<byte>) {
    && |s| >= HEADER_SZ && (IsSwapped(s) || Le16(s, 0) == MAGIC) && SectionsFit(NativeHeader(s))
    && (IsSwapped(s) ==> HdrLen(NativeHeader(s)) == HEADER_SZ)
  }

  lemma SwappedLength(s: seq<byte>)
    requires |s| >= HEADER_SZ
    ensures HdrLen(HeaderSwapped(s)) == Be32(s, 4)
  {
    hide HeaderSwapped;
    HeaderAt(s, 4);
    HeaderAt(s, 5);
    HeaderAt(s, 6);
    HeaderAt(s, 7);
  }

  method SwapHeader(a: array<byte>)
    requires a.Length >= HEADER_SZ
    modifies a
    ensures a[..] == HeaderSwapped(old(a[..]))
  {
    hide Swapped;
    ghost var s := a[..];
    a[0], a[1] := a[1], a[0];
    assert a[..] == [s[1], s[0]] + s[2..];
    SwapWords(a, 4, 5);
  }

  predicate StringsOk(s: seq<byte>, hasBase: bool)
    requires SectionsFit(s)
  {
    || (hasBase && StrLen(s) == 0)
    || (0 < StrLen(s) <= MAX_STR_OFFSET + 1 && s[StrsAt(s) + StrLen(s) - 1] == 0 && (hasBase || s[StrsAt(s)] == 0))
  }

  /** The data in native order. */
  function Native(s: seq<byte>): (r: seq<byte>)
    requires Framed(s)
    ensures |r| == |s|
  {
    var h := NativeHeader(s);
    NativeTypes(h, TypesAt(h), TypesEnd(h), IsSwapped(s))
  }

  /** What can be loaded: a readable header, terminated strings and records that tile the type section. */
  ghost predicate Loadable(s: seq<byte>, hasBase: bool) {
    Framed(s) && StringsOk(NativeHeader(s), hasBase) &&
    var h := NativeHeader(s); Tileable(Native(s), TypesAt(h), TypesAt(h), TypesEnd(h))
  }

  /** Native data written in the other byte order, one section after the other. */
  function Serialised(n: seq<byte>): seq<byte>
    requires SectionsFit(n) && HdrLen(n) == HEADER_SZ && IsWord(TypeLen(n))
  {
    HeaderSwapped(n)[..HEADER_SZ] + Swapped(n, TypesAt(n), TypesEnd(n))[TypesAt(n)..TypesEnd(n)] + n[StrsAt(n)..StrsAt(n) + StrLen(n)]
  }

  lemma SameHeader(a: seq<byte>, b: seq<byte>)
    requires |a| >= HEADER_SZ && |b| >= HEADER_SZ && a[..HEADER_SZ] == b[..HEADER_SZ]
    ensures HdrLen(a) == HdrLen(b) && TypeOff(a) == TypeOff(b) && TypeLen(a) == TypeLen(b) && StrOff(a) == StrOff(b) && StrLen(a) == StrLen(b)
    ensures HeaderSwapped(a)[..HEADER_SZ] == HeaderSwapped(b)[..HEADER_SZ]
  {
    forall i | 0 <= i < HEADER_SZ ensures a[i] == b[i] { assert a[..HEADER_SZ][i] == b[..HEADER_SZ][i]; }
    forall i | 0 <= i < HEADER_SZ ensures HeaderSwapped(a)[i] == HeaderSwapped(b)[i] {
      HeaderAt(a, i);
      HeaderAt(b, i);
      if 4 <= i { MirrorIn(i, 4, HEADER_SZ); }
    }
  }

  /** Putting the types in native order keeps the header, so the sections stay where they are. */
  lemma NativeKeepsHeader(s: seq<byte>)
    requires Framed(s)
    ensures var h, n := NativeHeader(s), Native(s);
            n[..HEADER_SZ] == h[..HEADER_SZ] && SectionsFit(n) && HdrLen(n) == HdrLen(h) && TypesAt(n) == TypesAt(h)
            && TypesEnd(n) == TypesEnd(h) && StrsAt(n) == StrsAt(h) && StrLen(n) == StrLen(h) && TypeLen(n) == TypeLen(h)
  {
    hide Swapped, HeaderSwapped;
    var h, n := NativeHeader(s), Native(s);
    if IsSwapped(s) {
      WordSum(HEADER_SZ, TypeOff(h));
      LastWordIsWord(TypesAt(h), TypesEnd(h));
      var last := LastWord(TypesAt(h), TypesEnd(h));
      SwappedParts(h, TypesAt(h), last, last);
      assert n[..HEADER_SZ] == n[..TypesAt(h)][..HEADER_SZ] == h[..TypesAt(h)][..HEADER_SZ] == h[..HEADER_SZ];
    }
    SameHeader(n, h);
  }

  /** Swapped data that was loaded is written back byte for byte if and only if its sections are packed:
      nothing lies between them or behind them. */
  lemma RestoresPacked(s: seq<byte>, hasBase: bool)
    requires Loadable(s, hasBase) && IsSwapped(s)
    ensures var n := Native(s); SectionsFit(n) && HdrLen(n) == HEADER_SZ && IsWord(TypeLen(n))
                                && (Serialised(n) == s <==> |s| == HEADER_SZ + TypeLen(n) + StrLen(n))
  {
    hide Swapped, HeaderSwapped, Tiles, Le32, StringsOk, NativeTypes, Serialised;
    var h, n := NativeHeader(s), Native(s);
    NativeKeepsHeader(s);
    TileableAligned(n, TypesAt(h), TypesEnd(h));
    SerialisedLength(n);
    if |s| == HEADER_SZ + TypeLen(n) + StrLen(n) {
      RestoresBytes(s, h, n);
    }
  }

  lemma TileableAligned(s: seq<byte>, base: nat, end: nat)
    requires Tileable(s, base, base, end)
    ensures base <= end && IsWord(end - base)
  {
    var offs :| Tiles(s, offs, base, base, end);
    TilesAligned(s, offs, base, base, end);
  }

  lemma SerialisedLength(n: seq<byte>)
    requires SectionsFit(n) && HdrLen(n) == HEADER_SZ && IsWord(TypeLen(n))
    ensures |Serialised(n)| == HEADER_SZ + TypeLen(n) + StrLen(n)
  {
  }

  lemma RestoresBytes(s: seq<byte>, h: seq<byte>, n: seq<byte>)
    requires Framed(s) && IsSwapped(s) && h == HeaderSwapped(s) && n == Native(s) && SectionsFit(n) && HdrLen(n) == HEADER_SZ
    requires IsWord(TypeLen(n)) && |s| == HEADER_SZ + TypeLen(n) + StrLen(n)
    requires TypesAt(n) == TypesAt(h) && TypesEnd(n) == TypesEnd(h) && n[..HEADER_SZ] == h[..HEADER_SZ]
    ensures Serialised(n) == s
  {
    hide Swapped, HeaderSwapped, Framed;
    var at, end := HEADER_SZ as nat, TypesEnd(n);
    assert TypesAt(n) == at && StrsAt(n) == end && end + StrLen(n) == |s|;
    WordSum(at, TypeLen(n));
    LastWordIsWord(at, end);
    assert n == Swapped(h, at, end);
    SameHeader(n, h);
    HeaderTwice(s);
    SwappedTwice(h, at, end);
    HeaderRest(s);
    SwappedParts(h, at, end, end);
    assert n[end..] == h[end..];
    JoinBytes(s, h, at, end);
    assert n[end..end + StrLen(n)] == n[end..];
  }

  lemma HeaderRest(s: seq<byte>)
    requires |s| >= HEADER_SZ
    ensures HeaderSwapped(s)[HEADER_SZ..] == s[HEADER_SZ..]
  {
    hide HeaderSwapped;
    forall i | HEADER_SZ <= i < |s| ensures HeaderSwapped(s)[i] == s[i] { HeaderAt(s, i); }
  }

  lemma JoinBytes(s: seq<byte>, h: seq<byte>, at: nat, end: nat)
    requires at <= end <= |s| == |h| && h[at..] == s[at..]
    ensures s[..at] + h[at..end] + h[end..] == s
  {
    assert h[at..end] == h[at..][..end - at] == s[at..end];
    assert h[end..] == h[at..][end - at..] == s[end..];
  }

  /** BTF data as it is loaded: the bytes, the offsets of the records and the byte order of the input. */
  class BtfFile {
    const raw: array<byte>
    var swappedEndian: bool
    var typeOffs: seq<nat>

    constructor (bytes: seq<byte>)
      ensures fresh(raw) && raw[..] == bytes && !swappedEndian && typeOffs == []
    {
      raw := new byte[|bytes|](i requires 0 <= i < |bytes| => bytes[i]);
      swappedEndian, typeOffs := false, [];
    }

    /** The records tile the type section. */
    ghost predicate Parsed()
      reads this, raw
    {
      && SectionsFit(raw[..]) && (swappedEndian ==> HdrLen(raw[..]) == HEADER_SZ)
      && Tiles(raw[..], typeOffs, TypesAt(raw[..]), TypesAt(raw[..]), TypesEnd(raw[..]))
    }

    method ParseHeader() returns (err: int)
      requires !swappedEndian
      modifies this`swappedEndian, raw
      ensures err == 0 || err == EINVAL || err == ENOTSUP
      ensures err == 0 <==> Framed(old(raw[..]))
      ensures err == 0 ==> raw[..] == NativeHeader(old(raw[..])) && swappedEndian == IsSwapped(old(raw[..]))
    {
      hide HeaderSwapped, Le16, Le32, Be32;
      if raw.Length < HEADER_SZ { return EINVAL; }
      if Le16(raw[..], 0) == SWAPPED_MAGIC {
        swappedEndian := true;
        SwappedLength(raw[..]);
        if Be32(raw[..], 4) != HEADER_SZ { return ENOTSUP; }
        SwapHeader(raw);
      } else if Le16(raw[..], 0) != MAGIC {
        return EINVAL;
      }
      if !SectionsFit(raw[..]) { return EINVAL; }
      return 0;
    }

    /** Turns the records into native order and notes where they start. */
    method ParseTypes() returns (err: int)
      requires SectionsFit(raw[..]) && (swappedEndian ==> HdrLen(raw[..]) == HEADER_SZ) && typeOffs == []
      modifies this`typeOffs, raw
      ensures err == 0 || err == EINVAL || err == ENOMEM
      ensures var s0 := old(raw[..]); var native := NativeTypes(s0, TypesAt(s0), TypesEnd(s0), swappedEndian);
              && (err == 0 ==> raw[..] == native && Tiles(native, typeOffs, TypesAt(s0), TypesAt(s0), TypesEnd(s0)))
              && (err != ENOMEM ==> (err == 0 <==> Tileable(native, TypesAt(s0), TypesAt(s0), TypesEnd(s0))))
    {
      hide Swapped, Tiles, Tileable, NativeTypes, Le32;
      WordSum(HEADER_SZ, TypeOff(raw[..]));
      hide IsWord;
      var base, end := TypesAt(raw[..]), TypesEnd(raw[..]);
      ghost var s0 := raw[..];
      ghost var native := NativeTypes(s0, base, end, swappedEndian);
      ParseStarts(s0, base, end, swappedEndian);
      var o := base;
      while o + BASE_SZ <= end
        invariant Parsing(s0, raw[..], typeOffs, base, o, end, swappedEndian)
        invariant Tileable(native, base, base, end) <==> Tileable(native, base, o, end)
        decreases end - o
      {
        var size;
        err, size := ParseRecord(base, o, end, s0);
        TileableStep(native, base, o, end);
        if err != 0 { return; }
        o := o + size;
      }
      TileableStep(native, base, o, end);
      if o != end { return EINVAL; }
      ParseDone(s0, raw[..], typeOffs, base, end, swappedEndian);
      return 0;
    }

    method ParseRecord(base: nat, o: nat, end: nat, ghost s0: seq<byte>) returns (err: int, size: nat)
      requires Parsing(s0, raw[..], typeOffs, base, o, end, swappedEndian) && o + BASE_SZ <= end
      modifies this`typeOffs, raw
      ensures err == 0 || err == EINVAL || err == ENOMEM
      ensures var native := NativeTypes(s0, base, end, swappedEndian);
              && (err != ENOMEM ==> (err == 0 <==> RecordAt(native, o, end)))
              && (err == 0 ==> size == SizeAt(native, o) >= BASE_SZ && Parsing(s0, raw[..], typeOffs, base, o + size, end, swappedEndian))
    {
      hide Swapped, Tiles, NativeTypes;
      size := 0;
      if swappedEndian {
        WordAligned(o, 3);
        SwapBase(raw, o);
        SwappedJoin(s0, base, o, o + BASE_SZ);
      }
      HeadRead(s0, raw[..], base, o, end, swappedEndian);
      var n := SizeAt(raw[..], o);
      SizeIsWords(Le32(raw[..], o + 4));
      if n < 0 || o + n > end { return EINVAL, 0; }
      if swappedEndian {
        err := SwapRest(raw, o);
        if err != 0 { return; }
        WordAligned(o, n / 4);
        SwappedJoin(s0, base, o + BASE_SZ, o + n);
      }
      var outOfMemory: bool := *;
      if outOfMemory { return ENOMEM, 0; }
      size := n;
      ParseStep(s0, raw[..], typeOffs, base, o, end, swappedEndian, size);
      typeOffs := typeOffs + [o - base];
      return 0, size;
    }

    method Parse(hasBase: bool) returns (err: int)
      requires !swappedEndian && typeOffs == []
      modifies this, raw
      ensures err != ENOMEM ==> (err == 0 <==> Loadable(old(raw[..]), hasBase))
      ensures err == 0 ==> Parsed() && Framed(old(raw[..])) && raw[..] == Native(old(raw[..])) && swappedEndian == IsSwapped(old(raw[..]))
    {
      hide Framed, SectionsFit, StringsOk, Tiles, Tileable, NativeTypes, NativeHeader;
      ghost var s0 := raw[..];
      err := ParseHeader();
      if err != 0 { return; }
      FramedFits(s0);
      if !StringsOk(raw[..], hasBase) { return EINVAL; }
      err := ParseTypes();
      NativeKeepsHeader(s0);
    }
  
    /** The data in the byte order in which it came. */
    method RawData() returns (ok: bool, out: seq<byte>)
      requires Parsed()
      ensures ok && !swappedEndian ==> out == raw[..]
      ensures ok && swappedEndian ==> IsWord(TypeLen(raw[..])) && out == Serialised(raw[..])
    {
      if !swappedEndian { return true, raw[..]; }
      var outOfMemory: bool := *;
      if outOfMemory { return false, []; }
      var n := raw[..];
      TilesAligned(n, typeOffs, TypesAt(n), TypesAt(n), TypesEnd(n));
      hide Swapped, HeaderSwapped, Tiles, Le32, Le16, Overwritten, SectionsFit, Serialised;
      out := WriteSections(n);
      return true, out;
    }

    /** Header, types and strings, each in its turn. */
    method WriteSections(n: seq<byte>) returns (out: seq<byte>)
      requires Parsed() && n == raw[..] && swappedEndian && IsWord(TypeLen(n))
      ensures out == Serialised(n)
    {
      hide Swapped, HeaderSwapped, Tiles, Le32, Le16, Overwritten, Serialised;
      var data := new byte[HEADER_SZ + TypeLen(n) + StrLen(n)](_ => 0);
      var header, types, strings := n[..HEADER_SZ], n[TypesAt(n)..TypesEnd(n)], n[StrsAt(n)..StrsAt(n) + StrLen(n)];
      OverwrittenSlice(data[..], 0, header);
      WriteBytes(data, 0, header);
      ghost var d0 := data[..];
      SwapHeader(data);
      ghost var d1 := data[..];
      OverwrittenSlice(d1, HEADER_SZ, types);
      WriteBytes(data, HEADER_SZ, types);
      ghost var d2 := data[..];
      TilesMoved(n, d2, typeOffs, TypesAt(n), HEADER_SZ, 0, TypeLen(n));
      SwapTypes(data, typeOffs, HEADER_SZ + TypeLen(n));
      ghost var d3 := data[..];
      WriteBytes(data, HEADER_SZ + TypeLen(n), strings);
      out := data[..];
      Assembled(n, d0, d1, d2, d3, out);
    }

    /** Swaps every record of a copy of the types: the rest of a record first, while its first words are
        still in native order. */
    static method SwapTypes(data: array<byte>, offs: seq<nat>, ghost end: nat)
      requires Tiles(data[..], offs, HEADER_SZ, HEADER_SZ, end) && HEADER_SZ <= end <= data.Length
      modifies data
      ensures data[..] == Swapped(old(data[..]), HEADER_SZ, end)
    {
      hide Swapped, Tiles, RecordAt, SizeAt;
      ghost var s0 := data[..];
      SwappedNone(s0, HEADER_SZ);
      Fours(6);
      hide IsWord;
      ghost var o := HEADER_SZ;
      var i := 0;
      assert offs[0..] == offs;
      while i < |offs|
        invariant 0 <= i <= |offs| && HEADER_SZ <= o <= end && IsWord(o)
        invariant Tiles(s0, offs[i..], HEADER_SZ, o, end)
        invariant data[..] == Swapped(s0, HEADER_SZ, o)
      {
        TilesLast(s0, offs, HEADER_SZ, o, end, i);
        var t := HEADER_SZ + offs[i];
        SwapRecord(data, t, s0, end);
        o := o + SizeAt(s0, o);
        i := i + 1;
      }
      TilesLast(s0, offs, HEADER_SZ, o, end, i);
    }

    static method SwapRecord(data: array<byte>, t: nat, ghost s0: seq<byte>, ghost end: nat)
      requires data.Length == |s0| && HEADER_SZ <= t && IsWord(t) && RecordAt(s0, t, end) && data[..] == Swapped(s0, HEADER_SZ, t)
      modifies data
      ensures SizeAt(s0, t) >= BASE_SZ && IsWord(t + SizeAt(s0, t)) && data[..] == Swapped(s0, HEADER_SZ, t + SizeAt(s0, t))
    {
      hide Swapped, Le32;
      SizeIsWords(Le32(s0, t + 4));
      ghost var next := t + SizeAt(s0, t);
      WordAligned(t, 3);
      WordAligned(t, SizeAt(s0, t) / 4);
      SwappedParts(s0, HEADER_SZ, t, t);
      SameInfoAt(s0, data[..], t);
      var err := SwapRest(data, t);
      SwapBase(data, t);
      SwappedJoin(data[..], t, t, t);
      SwappedJoin(Swapped(s0, HEADER_SZ, t), t, t + BASE_SZ, next);
      SwappedJoin(s0, HEADER_SZ, t, next);
    }
  }

  lemma SameInfoAt(s: seq<byte>, s': seq<byte>, t: nat)
    requires |s| == |s'| && t + BASE_SZ <= |s| && s'[t..] == s[t..]
    ensures SizeAt(s', t) == SizeAt(s, t)
  {
    SameInfo(s, s', t, t, 0, |s| - t);
  }

  lemma OverwrittenSlice(b: seq<byte>, at: nat, s: seq<byte>)
    requires at + |s| <= |b|
    ensures Overwritten(b, at, s)[at..at + |s|] == s
  {
  }

  lemma Assembled(n: seq<byte>, d0: seq<byte>, d1: seq<byte>, d2: seq<byte>, d3: seq<byte>, out: seq<byte>)
    requires SectionsFit(n) && HdrLen(n) == HEADER_SZ && IsWord(TypeLen(n))
    requires |d0| == HEADER_SZ + TypeLen(n) + StrLen(n) && d0[..HEADER_SZ] == n[..HEADER_SZ] && d1 == HeaderSwapped(d0)
    requires d2 == Overwritten(d1, HEADER_SZ, n[TypesAt(n)..TypesEnd(n)]) && d3 == Swapped(d2, HEADER_SZ, HEADER_SZ + TypeLen(n))
    requires out == Overwritten(d3, HEADER_SZ + TypeLen(n), n[StrsAt(n)..StrsAt(n) + StrLen(n)])
    ensures out == Serialised(n)
  {
    hide Swapped, HeaderSwapped, Le32;
    var end := HEADER_SZ + TypeLen(n);
    SameHeader(d0, n);
    SwappedParts(d2, HEADER_SZ, end, end);
    var types := Swapped(n, TypesAt(n), TypesEnd(n))[TypesAt(n)..TypesEnd(n)];
    SwappedMoved(n, d2, TypesAt(n), HEADER_SZ, TypeLen(n));
    assert out[..HEADER_SZ] == d3[..HEADER_SZ] == d2[..HEADER_SZ] == d1[..HEADER_SZ];
    assert out[HEADER_SZ..end] == d3[HEADER_SZ..end];
    assert out[end..] == n[StrsAt(n)..StrsAt(n) + StrLen(n)];
    assert out == out[..HEADER_SZ] + out[HEADER_SZ..end] + out[end..];
  }

  lemma SwappedMoved(a: seq<byte>, b: seq<byte>, at: nat, at': nat, len: nat)
    requires Aligned(a, at, at + len) && Aligned(b, at', at' + len) && a[at..at + len] == b[at'..at' + len]
    ensures Swapped(a, at, at + len)[at..at + len] == Swapped(b, at', at' + len)[at'..at' + len]
  {
    hide Swapped;
    var x, y := Swapped(a, at, at + len)[at..at + len], Swapped(b, at', at' + len)[at'..at' + len];
    forall i | 0 <= i < len ensures x[i] == y[i] {
      SwappedAt(a, at, at + len, at + i);
      SwappedAt(b, at', at' + len, at' + i);
      MirrorMoved(at, at', i);
      var j := Mirror(at + i) - at;
      SameByte(a, b, at, at', len, j);
    }
  }

  lemma MirrorMoved(at: nat, at': nat, i: nat)
    requires IsWord(at) && IsWord(at')
    ensures Mirror(at + i) - at == Mirror(at' + i) - at'
  {
    assert at == 4 * (at / 4) && at' == 4 * (at' / 4);
    assert (at + i) % 4 == i % 4 && (at' + i) % 4 == i % 4;
  }

  /** Loading and writing back: data in native order comes back as it was; swapped data does if and only if
      it is packed. */
  method Reserialise(bytes: seq<byte>, hasBase: bool) returns (ok: bool, out: seq<byte>)
    ensures ok ==> Loadable(bytes, hasBase)
    ensures ok ==> (out == bytes <==> !IsSwapped(bytes) || |bytes| == HEADER_SZ + TypeLen(NativeHeader(bytes)) + StrLen(NativeHeader(bytes)))
  {
    hide Loadable, Framed, Serialised, Native, Le32, Le16;
    var f := new BtfFile(bytes);
    var err := f.Parse(hasBase);
    if err != 0 { return false, []; }
    LoadableFacts(bytes, hasBase);
    ok, out := f.RawData();
    if IsSwapped(bytes) {
      RestoresPacked(bytes, hasBase);
      NativeKeepsHeader(bytes);
    }
  }

  lemma LoadableFacts(s: seq<byte>, hasBase: bool)
    requires Loadable(s, hasBase)
    ensures Framed(s) && |s| >= HEADER_SZ && (!IsSwapped(s) ==> Native(s) == s)
  {
  }

  lemma FramedFits(s: seq<byte>)
    requires Framed(s)
    ensures SectionsFit(NativeHeader(s)) && (IsSwapped(s) ==> HdrLen(NativeHeader(s)) == HEADER_SZ)
  {
  }
}
