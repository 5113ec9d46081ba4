/** Compaction of the type records in place, byte by byte (btf_dedup_compact_types in btf.c). */
module Compaction {
  import opened Bytes
  import opened Btf
  import opened TypeSections
  import opened Renumber

  // ----- Records as byte sequences ----------------------------------------------------------------

  /** The bytes of the record at o. */
  function RecordBytes(s: seq<byte>, o: nat): seq<byte> {
    if RecordAt(s, o, |s|) then s[o..o + SizeAt(s, o)] else []
  }

  function Records(s: seq<byte>, offs: seq<nat>): (r: seq<seq<byte>>)
    ensures |r| == |offs| && forall i :: 0 <= i < |r| ==> r[i] == RecordBytes(s, offs[i])
  {
    seq(|offs|, i requires 0 <= i < |offs| => RecordBytes(s, offs[i]))
  }

  /** Where record i starts, or the end of the last one. */
  function StartOf(offs: seq<nat>, len: nat, i: nat): nat
    requires i <= |offs|
  {
    if i < |offs| then offs[i] else len
  }

  /** Records that tile a section follow one another. */
  lemma {:induction false} TileAt(s: seq<byte>, offs: seq<nat>, o: nat, len: nat, i: nat)
    requires Tiles(s, offs, 0, o, len) && i < |offs|
    ensures RecordAt(s, offs[i], len) && o <= offs[i] && StartOf(offs, len, i + 1) == offs[i] + SizeAt(s, offs[i]) <= len
    decreases |offs|
  {
    SizeIsWords(Le32(s, o + 4));
    if i > 0 {
      TileAt(s, offs[1..], o + SizeAt(s, o), len, i - 1);
      assert StartOf(offs[1..], len, i) == StartOf(offs, len, i + 1);
    } else {
      assert |offs| > 1 ==> offs[1] == offs[1..][0];
    }
  }

  lemma FirstStart(s: seq<byte>, offs: seq<nat>, len: nat)
    requires Tiles(s, offs, 0, 0, len)
    ensures StartOf(offs, len, 0) == 0
  {
  }

  /** A record only depends on its own bytes. */
  lemma SameRecord(s: seq<byte>, s': seq<byte>, o: nat, o': nat, size: nat)
    requires RecordAt(s, o, |s|) && size == SizeAt(s, o) && o' + size <= |s'| && s'[o'..o' + size] == s[o..o + size]
    ensures RecordAt(s', o', o' + size) && SizeAt(s', o') == size && RecordBytes(s', o') == RecordBytes(s, o)
  {
    hide SizeAt;
    RecordSize(s, o);
    SameInfo(s, s', o, o', 0, size);
  }

  lemma RecordIs(s: seq<byte>, o: nat)
    requires RecordAt(s, o, |s|)
    ensures RecordBytes(s, o) == s[o..o + SizeAt(s, o)]
  {
  }

  lemma RecordSize(s: seq<byte>, o: nat)
    requires RecordAt(s, o, |s|)
    ensures SizeAt(s, o) >= BASE_SZ
  {
    SizeIsWords(Le32(s, o + 4));
  }

  // ----- Moving -----------------------------------------------------------------------------------

  /** s with n bytes copied from src to dst. */
  predicate Moved(s: seq<byte>, r: seq<byte>, dst: nat, src: nat, n: nat) {
    dst + n <= |s| && src + n <= |s| && r == Overwritten(s, dst, s[src..src + n])
  }

  /** memmove to a lower or the same place. */
  method MoveDown(a: array<byte>, dst: nat, src: nat, n: nat)
    requires dst <= src && src + n <= a.Length
    modifies a
    ensures Moved(old(a[..]), a[..], dst, src, n)
  {
    hide Moved;
    ghost var s := a[..];
    MoveNone(s, dst, src);
    var i := 0;
    while i < n
      invariant 0 <= i <= n && Moved(s, a[..], dst, src, i)
    {
      ghost var r := a[..];
      MoveOne(s, dst, src, i, r);
      a[dst + i] := a[src + i];
      assert a[..] == r[dst + i := r[src + i]];
      i := i + 1;
    }
  }

  lemma MoveNone(s: seq<byte>, dst: nat, src: nat)
    requires dst <= src <= |s|
    ensures Moved(s, s, dst, src, 0)
  {
  }

  lemma MoveOne(s: seq<byte>, dst: nat, src: nat, i: nat, r: seq<byte>)
    requires dst <= src && src + i < |s| && Moved(s, r, dst, src, i)
    ensures |r| == |s| && Moved(s, r[dst + i := r[src + i]], dst, src, i + 1)
  {
    assert s[src..src + i + 1] == s[src..src + i] + [s[src + i]];
  }

  /** The state after the first i records: the kept ones are packed before p, which is not behind the first
      byte still to be read, and neither a record nor an offset from i on has changed. */
  ghost predicate Packing(s0: seq<byte>, offs0: seq<nat>, len: nat, s: seq<byte>, offs: seq<nat>, i: nat, k: nat, p: nat) {
    && |s| == |s0| && |offs| == |offs0| && k <= i <= |offs0| && len <= |s0| && p <= StartOf(offs0, len, i) <= len
    && offs[i..] == offs0[i..] && s[StartOf(offs0, len, i)..] == s0[StartOf(offs0, len, i)..]
    && Tiles(s, offs[..k], 0, 0, p)
  }

  /** The packed records are the first kept ones. */
  ghost predicate Holding(s: seq<byte>, offs: seq<nat>, k: nat, cur: seq<seq<byte>>, start: nat)
    requires k <= |offs|
  {
    start + k <= |cur| && forall j :: 0 <= j < k ==> RecordBytes(s, offs[j]) == cur[start + j]
  }

  lemma PackingStarts(s: seq<byte>, offs: seq<nat>, len: nat)
    requires Tiles(s, offs, 0, 0, len)
    ensures Packing(s, offs, len, s, offs, 0, 0, 0)
  {
    FirstStart(s, offs, len);
  }

  lemma PackingSkip(s0: seq<byte>, offs0: seq<nat>, len: nat, s: seq<byte>, offs: seq<nat>, i: nat, k: nat, p: nat)
    requires Packing(s0, offs0, len, s, offs, i, k, p) && Tiles(s0, offs0, 0, 0, len) && i < |offs0|
    ensures Packing(s0, offs0, len, s, offs, i + 1, k, p)
  {
    hide Tiles;
    TileAt(s0, offs0, 0, len, i);
    LaterBytes(s0, s, StartOf(offs0, len, i), StartOf(offs0, len, i + 1));
    assert offs[i + 1..] == offs[i..][1..] == offs0[i..][1..];
  }

  lemma LaterBytes(a: seq<byte>, b: seq<byte>, lo: nat, hi: nat)
    requires lo <= hi <= |a| == |b| && a[lo..] == b[lo..]
    ensures a[hi..] == b[hi..]
  {
    assert a[hi..] == a[lo..][hi - lo..];
  }

  /** What is read at record i is what was there at the start. */
  lemma Unread(s0: seq<byte>, offs0: seq<nat>, len: nat, s: seq<byte>, offs: seq<nat>, i: nat, k: nat, p: nat)
    requires Packing(s0, offs0, len, s, offs, i, k, p) && Tiles(s0, offs0, 0, 0, len) && i < |offs0|
    ensures offs[i] == offs0[i] && p <= offs[i] && RecordAt(s, offs[i], |s|) && SizeAt(s, offs[i]) == SizeAt(s0, offs[i])
    ensures RecordBytes(s, offs[i]) == RecordBytes(s0, offs0[i])
  {
    hide Tiles, SizeAt;
    TileAt(s0, offs0, 0, len, i);
    assert offs[i] == offs[i..][0] == offs0[i..][0];
    var t, size := offs0[i], SizeAt(s0, offs0[i]);
    assert s[t..t + size] == s[t..][..size] == s0[t..][..size] == s0[t..t + size];
    SameRecord(s0, s, t, t, size);
  }

  lemma PackingMove(s0: seq<byte>, offs0: seq<nat>, len: nat, s: seq<byte>, offs: seq<nat>, i: nat, k: nat, p: nat, size: nat, s': seq<byte>)
    requires Packing(s0, offs0, len, s, offs, i, k, p) && Tiles(s0, offs0, 0, 0, len) && i < |offs0|
    requires RecordAt(s0, offs0[i], |s0|) && size == SizeAt(s0, offs0[i]) && p + size <= |s| && s' == Overwritten(s, p, RecordBytes(s0, offs0[i]))
    ensures Packing(s0, offs0, len, s', offs[k := p], i + 1, k + 1, p + size) && RecordBytes(s', p) == RecordBytes(s0, offs0[i])
  {
    hide Tiles, SizeAt;
    var t := offs0[i];
    TileAt(s0, offs0, 0, len, i);
    PackedBytes(s, s', p, RecordBytes(s0, t));
    assert s0[t..t + size] == s'[p..p + size];
    SameRecord(s0, s', t, p, size);
    PackedTiles(s, s', offs[..k], p, size);
    assert offs[k := p][..k + 1] == offs[..k] + [p];
    assert offs[k := p][i + 1..] == offs[i..][1..] == offs0[i + 1..];
    LaterBytes(s0, s, t, t + size);
    LaterBytes(s, s', p + size, t + size);
  }

  lemma PackedBytes(s: seq<byte>, s': seq<byte>, p: nat, r: seq<byte>)
    requires p + |r| <= |s| && s' == Overwritten(s, p, r)
    ensures s'[..p] == s[..p] && s'[p..p + |r|] == r && s'[p + |r|..] == s[p + |r|..]
  {
  }

  lemma PackedTiles(s: seq<byte>, s': seq<byte>, offs: seq<nat>, p: nat, size: nat)
    requires Tiles(s, offs, 0, 0, p) && |s'| == |s| && p <= |s| && s'[..p] == s[..p] && RecordAt(s', p, p + size) && SizeAt(s', p) == size
    ensures Tiles(s', offs + [p], 0, 0, p + size)
  {
    hide SizeAt, Tiles;
    assert s'[0..p] == s'[..p] && s[0..p] == s[..p];
    TilesMoved(s, s', offs, 0, 0, 0, p);
    TilesAppend(s', offs, 0, 0, p, p + size);
  }

  /** Writing behind the packed records leaves them as they are. */
  lemma HoldingMore(s: seq<byte>, s': seq<byte>, offs: seq<nat>, k: nat, p: nat, cur: seq<seq<byte>>, start: nat, r: seq<byte>)
    requires k < |offs| && Holding(s, offs, k, cur, start) && start + k < |cur| && Tiles(s, offs[..k], 0, 0, p)
    requires |s'| == |s| && p <= |s| && s'[..p] == s[..p] && RecordBytes(s', p) == r
    ensures Holding(s', offs[k := p], k + 1, cur[start + k := r], start)
  {
    hide Tiles, RecordBytes;
    var offs', cur' := offs[k := p], cur[start + k := r];
    forall j | 0 <= j < k + 1 ensures RecordBytes(s', offs'[j]) == cur'[start + j] {
      if j < k { PackedRecord(s, s', offs[..k], p, j); }
    }
  }

  lemma PackedRecord(s: seq<byte>, s': seq<byte>, offs: seq<nat>, p: nat, j: nat)
    requires Tiles(s, offs, 0, 0, p) && |s'| == |s| && p <= |s| && s'[..p] == s[..p] && j < |offs|
    ensures RecordBytes(s', offs[j]) == RecordBytes(s, offs[j])
  {
    hide Tiles, SizeAt;
    TileAt(s, offs, 0, p, j);
    var o, size := offs[j], SizeAt(s, offs[j]);
    assert s'[o..o + size] == s'[..p][o..o + size] == s[..p][o..o + size] == s[o..o + size];
    SameRecord(s, s', o, o, size);
  }

  /** Moves record i, which is at t, to p, where the kept record number k belongs. */
  method MoveRecord(data: array<byte>, t: nat, len: nat, ghost i: nat, ghost k: nat, p: nat, ghost offs: seq<nat>,
                    ghost s0: seq<byte>, ghost offs0: seq<nat>, ghost cur: seq<seq<byte>>, ghost start: nat)
      returns (size: nat)
    requires Packing(s0, offs0, len, data[..], offs, i, k, p) && Tiles(s0, offs0, 0, 0, len) && i < |offs0| == |offs| && t == offs[i]
    requires k < |offs| && Holding(data[..], offs, k, cur, start) && start + k < |cur|
    modifies data
    ensures Packing(s0, offs0, len, data[..], offs[k := p], i + 1, k + 1, p + size)
    ensures Holding(data[..], offs[k := p], k + 1, cur[start + k := RecordBytes(s0, offs0[i])], start)
  {
    hide Tiles, Packing, Holding, SizeAt, RecordBytes, RecordAt, Moved;
    ghost var s := data[..];
    Movable(s0, offs0, len, s, offs, i, k, p);
    size := SizeAt(data[..], t);
    MoveDown(data, p, t, size);
    MoveKeeps(s0, offs0, len, s, offs, i, k, p, cur, start, data[..]);
  }

  lemma Movable(s0: seq<byte>, offs0: seq<nat>, len: nat, s: seq<byte>, offs: seq<nat>, i: nat, k: nat, p: nat)
    requires Packing(s0, offs0, len, s, offs, i, k, p) && Tiles(s0, offs0, 0, 0, len) && i < |offs0|
    ensures |offs| == |offs0| && k <= i && p <= offs[i] && offs[i] + BASE_SZ <= |s| && SizeAt(s, offs[i]) >= 0 && offs[i] + SizeAt(s, offs[i]) <= |s|
    ensures RecordAt(s, offs[i], |s|)
  {
    hide Tiles, SizeAt;
    Unread(s0, offs0, len, s, offs, i, k, p);
  }

  lemma MoveKeeps(s0: seq<byte>, offs0: seq<nat>, len: nat, s: seq<byte>, offs: seq<nat>, i: nat, k: nat, p: nat,
                  cur: seq<seq<byte>>, start: nat, s': seq<byte>)
    requires Packing(s0, offs0, len, s, offs, i, k, p) && Tiles(s0, offs0, 0, 0, len) && i < |offs0|
    requires Holding(s, offs, k, cur, start) && start + k < |cur|
    requires RecordAt(s, offs[i], |s|) && p <= offs[i] && Moved(s, s', p, offs[i], SizeAt(s, offs[i]))
    ensures Packing(s0, offs0, len, s', offs[k := p], i + 1, k + 1, p + SizeAt(s, offs[i]))
    ensures Holding(s', offs[k := p], k + 1, cur[start + k := RecordBytes(s0, offs0[i])], start)
  {
    hide Tiles, Packing, Holding, SizeAt, RecordBytes;
    PackedSoFar(s0, offs0, len, s, offs, i, k, p);
    Unread(s0, offs0, len, s, offs, i, k, p);
    var r := RecordBytes(s0, offs0[i]);
    RecordIs(s, offs[i]);
    PackingMove(s0, offs0, len, s, offs, i, k, p, SizeAt(s, offs[i]), s');
    PackedBytes(s, s', p, r);
    HoldingMore(s, s', offs, k, p, cur, start, r);
  }

  lemma PackedSoFar(s0: seq<byte>, offs0: seq<nat>, len: nat, s: seq<byte>, offs: seq<nat>, i: nat, k: nat, p: nat)
    requires Packing(s0, offs0, len, s, offs, i, k, p) && Tiles(s0, offs0, 0, 0, len) && i < |offs0|
    ensures |s| == |s0| && |offs| == |offs0| && k <= i && p <= |s| && Tiles(s, offs[..k], 0, 0, p) && RecordAt(s0, offs0[i], |s0|)
  {
    hide Tiles;
    TileAt(s0, offs0, 0, len, i);
  }

  // ----- Compaction -------------------------------------------------------------------------------

  /** Base ids stay, the others have no new id yet. */
  method ResetIds(hypot: array<nat>, start: nat)
    requires 1 <= start <= hypot.Length
    modifies hypot
    ensures forall i :: 0 <= i < hypot.Length ==> hypot[i] == if i < start then i else UNPROCESSED_ID
  {
    hypot[0] := 0;
    for id := 1 to start
      invariant forall i :: 0 <= i < id ==> hypot[i] == i
    {
      hypot[id] := id;
    }
    for id := start to hypot.Length
      invariant forall i :: 0 <= i < id ==> hypot[i] == if i < start then i else UNPROCESSED_ID
    {
      hypot[id] := UNPROCESSED_ID;
    }
  }

  lemma CompactStarts<T>(g: seq<T>, m: seq<nat>, start: nat, hy: seq<nat>)
    requires start <= |g| == |m| == |hy| && forall i :: 0 <= i < |hy| ==> hy[i] == if i < start then i else UNPROCESSED_ID
    ensures Compacting(g, m, start, g, hy, start) && NewPlace(m, start, start) == start
  {
  }

  lemma HoldingNone(s: seq<byte>, offs: seq<nat>, cur: seq<seq<byte>>, start: nat)
    requires start <= |cur|
    ensures Holding(s, offs, 0, cur, start)
  {
  }

  lemma Intact(g: seq<seq<byte>>, m: seq<nat>, start: nat, cur: seq<seq<byte>>, hy: seq<nat>, base: seq<seq<byte>>, s0: seq<byte>, offs0: seq<nat>, i: nat)
    requires Compacting(g, m, start, cur, hy, start + i) && i < |offs0| && |base| == start && g == base + Records(s0, offs0)
    ensures start + i < |cur| && cur[start + i] == RecordBytes(s0, offs0[i]) && NewPlace(m, start, start + i) <= start + i
  {
    hide RecordBytes;
  }

  lemma PackingEnds(s0: seq<byte>, offs0: seq<nat>, len: nat, s: seq<byte>, offs: seq<nat>, k: nat, p: nat)
    requires Packing(s0, offs0, len, s, offs, |offs0|, k, p)
    ensures k <= |offs| && p <= len <= |s| && Tiles(s, offs[..k], 0, 0, p)
  {
  }

  lemma HoldingAll(s: seq<byte>, offs: seq<nat>, k: nat, cur: seq<seq<byte>>, start: nat, base: seq<seq<byte>>)
    requires k <= |offs| && Holding(s, offs, k, cur, start) && |base| == start && cur[..start] == base
    ensures cur[..start + k] == base + Records(s, offs[..k])
  {
    hide RecordBytes;
    var out := base + Records(s, offs[..k]);
    forall j | 0 <= j < start + k ensures cur[j] == out[j] {
      if j < start { assert cur[j] == cur[..start][j]; } else { assert RecordBytes(s, offs[j - start]) == cur[start + (j - start)]; }
    }
  }

  lemma BaseKept(g: seq<seq<byte>>, m: seq<nat>, start: nat, cur: seq<seq<byte>>, hy: seq<nat>, p: nat, base: seq<seq<byte>>)
    requires Compacting(g, m, start, cur, hy, p) && |base| == start && base <= g
    ensures start <= |cur| && cur[..start] == base
  {
    forall j | 0 <= j < start ensures cur[j] == base[j] { assert PlacedAt(m, start, hy, j); }
  }

  /** Moves the records of representatives down over those of duplicates, with their offsets, and records
      the new ids.  What base stands for is not touched. */
  method CompactRecords(data: array<byte>, offs: array<nat>, len: nat, links: seq<nat>, start: nat, hypot: array<nat>, ghost base: seq<seq<byte>>)
      returns (n: nat, newLen: nat)
    requires 1 <= start <= |links| == hypot.Length && offs.Length == |links| - start && |base| == start && offs != hypot
    requires Tiles(data[..], offs[..], 0, 0, len)
    modifies data, offs, hypot
    ensures n <= offs.Length && newLen <= len <= data.Length
    ensures Compacted(base + Records(old(data[..]), old(offs[..])), links, start, base + Records(data[..], offs[..n]), hypot[..])
    ensures Tiles(data[..], offs[..n], 0, 0, newLen)
  {
    hide Tiles, Records, Packing, Holding, Compacting, RecordBytes;
    ghost var s0, offs0 := data[..], offs[..];
    ghost var g := base + Records(s0, offs0);
    ghost var cur := g;
    ResetIds(hypot, start);
    CompactStarts(g, links, start, hypot[..]);
    PackingStarts(s0, offs0, len);
    HoldingNone(s0, offs0, cur, start);
    var p, next, i := 0, start, 0;
    while i < offs.Length
      invariant 0 <= i <= offs.Length && next == NewPlace(links, start, start + i) && start <= next <= start + i
      invariant Packing(s0, offs0, len, data[..], offs[..], i, next - start, p) && |cur| == |g|
      invariant Holding(data[..], offs[..], next - start, cur, start) && Compacting(g, links, start, cur, hypot[..], start + i)
    {
      if links[start + i] == start + i {
        CompactMove(g, links, start, cur, hypot[..], start + i);
        Intact(g, links, start, cur, hypot[..], base, s0, offs0, i);
        ghost var os := offs[..];
        var size := MoveRecord(data, offs[i], len, i, next - start, p, os, s0, offs0, cur, start);
        offs[next - start] := p;
        assert offs[..] == os[next - start := p];
        p := p + size;
        cur := cur[next := cur[start + i]];
        hypot[start + i] := next;
        next := next + 1;
      } else {
        PackingSkip(s0, offs0, len, data[..], offs[..], i, next - start, p);
        CompactSkip(g, links, start, cur, hypot[..], start + i);
      }
      i := i + 1;
    }
    n, newLen := next - start, p;
    CompactDone(g, links, start, cur, hypot[..]);
    PackingEnds(s0, offs0, len, data[..], offs[..], n, p);
    BaseKept(g, links, start, cur, hypot[..], |links|, base);
    HoldingAll(data[..], offs[..], n, cur, start, base);
  }

  // ----- The types that the bytes stand for -------------------------------------------------------

  /** Every step-th word of a record from word i on, n of them. */
  function Every(r: seq<byte>, i: nat, step: nat, n: nat): (ws: seq<nat>)
    ensures |ws| == n
  {
    seq(n, k requires 0 <= k < n => Word(r, i + step * k))
  }

  function Word(r: seq<byte>, i: nat): nat { if 4 * i + 4 <= |r| then Le32(r, 4 * i) else 0 }

  /** Words i and i + 1 of every three, n times. */
  function Pairs(r: seq<byte>, i: nat, n: nat): (ws: seq<nat>)
    ensures |ws| == 2 * n
  {
    seq(2 * n, k requires 0 <= k < 2 * n => Word(r, i + 3 * (k / 2) + k % 2))
  }

  /** The type that a record in native order stands for. */
  function TypeOf(r: seq<byte>): Type {
    var info := Word(r, 1);
    var kind, vlen := InfoKind(info), InfoVlen(info);
    var spare := info / 0x1_0000 % 0x100 + info / 0x2000_0000 % 4 * 0x100;
    var third := Word(r, 2);
    var names := match kind
      case Struct | Union | Enum64 => Every(r, 3, 3, vlen)
      case Enum | FuncProto => Every(r, 3, 2, vlen)
      case _ => [];
    var words := match kind
      case Int | Var | DeclTag => [Word(r, 3)]
      case Array => [Word(r, 5)]
      case Struct | Union => Every(r, 5, 3, vlen)
      case Enum => Every(r, 4, 2, vlen)
      case Enum64 | Datasec => Pairs(r, 4, vlen)
      case _ => [];
    var refs := match kind
      case Void | Int | Float | Enum | Enum64 => []
      case Array => [Word(r, 3), Word(r, 4)]
      case Struct | Union => Every(r, 4, 3, vlen)
      case Datasec => Every(r, 3, 3, vlen)
      case FuncProto => [third] + Every(r, 4, 2, vlen)
      case _ => [third];
    var size := match kind
      case Int | Float | Enum | Enum64 | Struct | Union | Datasec | Array => third
      case _ => 0;
    Type(kind, info / 0x8000_0000 == 1, spare, vlen, Word(r, 0), size, names, words, refs)
  }

  lemma InfoIsWord(s: seq<byte>, o: nat)
    requires RecordAt(s, o, |s|)
    ensures |RecordBytes(s, o)| >= BASE_SZ && Word(RecordBytes(s, o), 1) == Le32(s, o + 4)
  {
    RecordSize(s, o);
    hide SizeAt;
    var r := RecordBytes(s, o);
    assert r[4] == s[o + 4] && r[5] == s[o + 5] && r[6] == s[o + 6] && r[7] == s[o + 7];
  }

  lemma TypeIsWellFormed(r: seq<byte>)
    ensures WellFormed(TypeOf(r)) && TypeOf(r).kind == InfoKind(Word(r, 1))
  {
    hide Every, Pairs, Word, InfoVlen, InfoKind;
  }

  /** A record of a known kind with all its bytes. */
  predicate WholeRecord(r: seq<byte>) {
    |r| >= BASE_SZ && InfoKind(Word(r, 1)) != Void && |r| == TypeSize(Word(r, 1))
  }

  /** The number of words of a record: three, and one for every field of its tail. */
  function FieldCount(t: Type): int {
    3 + |t.names| + |t.words| + |t.refs| - (if HasTypeWord(t) then 1 else 0)
  }

  lemma WholeRecordFields(r: seq<byte>)
    requires WholeRecord(r)
    ensures WellFormed(TypeOf(r)) && TypeOf(r).kind != Void && |r| == 4 * FieldCount(TypeOf(r))
  {
    TypeIsWellFormed(r);
    assert TypeOf(r).vlen == InfoVlen(Word(r, 1));
    hide TypeOf, WellFormed, Word, InfoKind, InfoVlen, TailWords;
    TailWordsAreFields(TypeOf(r));
  }

  /** Every record of a section that was loaded stands for a well-formed type and is exactly as long as its
      fields are. */
  lemma LoadedTypes(s: seq<byte>, offs: seq<nat>, len: nat, i: nat)
    requires Tiles(s, offs, 0, 0, len) && i < |offs|
    ensures var r := Records(s, offs)[i];
            WholeRecord(r) && WellFormed(TypeOf(r)) && TypeOf(r).kind != Void && |r| == 4 * FieldCount(TypeOf(r))
  {
    TileAt(s, offs, 0, len, i);
    InfoIsWord(s, offs[i]);
    RecordIs(s, offs[i]);
    assert TypeSize(Le32(s, offs[i] + 4)) >= 0;
    hide TypeOf, WellFormed, RecordBytes, Tiles, FieldCount, Word, Le32, InfoKind, InfoVlen, TailWords, StartOf;
    WholeRecordFields(RecordBytes(s, offs[i]));
  }

  // ----- No two records stand for one type --------------------------------------------------------

  /** Word k of the tail of a record that stands for t. */
  function TailWord(t: Type, k: nat): nat
    requires WellFormed(t) && k < TailWords(t.kind, t.vlen)
  {
    match t.kind
    case Int | Var | DeclTag => t.words[0]
    case Array => if k < 2 then t.refs[k] else t.words[0]
    case Struct | Union => if k % 3 == 0 then t.names[k / 3] else if k % 3 == 1 then t.refs[k / 3] else t.words[k / 3]
    case Datasec => if k % 3 == 0 then t.refs[k / 3] else t.words[2 * (k / 3) + k % 3 - 1]
    case Enum64 => if k % 3 == 0 then t.names[k / 3] else t.words[2 * (k / 3) + k % 3 - 1]
    case Enum => if k % 2 == 0 then t.names[k / 2] else t.words[k / 2]
    case FuncProto => if k % 2 == 0 then t.names[k / 2] else t.refs[1 + k / 2]
  }

  /** Word k of a record that stands for t. */
  function WordOf(t: Type, k: nat): nat
    requires WellFormed(t) && k < 3 + TailWords(t.kind, t.vlen)
  {
    if k == 0 then t.name else if k == 1 then Info(t) else if k == 2 then ThirdWord(t) else TailWord(t, k - 3)
  }

  lemma InfoRestored(info: nat)
    requires info < 0x1_0000_0000 && InfoKind(info) != Void
    ensures var spare := info / 0x1_0000 % 0x100 + info / 0x2000_0000 % 4 * 0x100;
            info == InfoVlen(info) + spare % 0x100 * 0x1_0000 + KindNumber(InfoKind(info)) * 0x100_0000 + spare / 0x100 * 0x2000_0000 +
                    (if info / 0x8000_0000 == 1 then 0x8000_0000 else 0)
  {
    KindCodes(Void, info / 0x100_0000 % 32);
    hide KindNumber, KindOf;
    Bits(info);
  }

  lemma Bits(info: nat)
    requires info < 0x1_0000_0000
    ensures var low, high := info / 0x1_0000 % 0x100, info / 0x2000_0000 % 4;
            && (low + high * 0x100) % 0x100 == low && (low + high * 0x100) / 0x100 == high
            && info == info % 0x1_0000 + low * 0x1_0000 + info / 0x100_0000 % 32 * 0x100_0000 + high * 0x2000_0000 +
                       (if info / 0x8000_0000 == 1 then 0x8000_0000 else 0)
  {
    var a, b, c := info / 0x1_0000, info / 0x100_0000, info / 0x2000_0000;
    assert info == a * 0x1_0000 + info % 0x1_0000;
    assert a == b * 0x100 + a % 0x100;
    assert b == c * 32 + b % 32;
    assert c == info / 0x8000_0000 * 4 + c % 4;
  }

  lemma HeadRestored(r: seq<byte>)
    requires WholeRecord(r)
    ensures var t := TypeOf(r); Word(r, 0) == t.name && Word(r, 1) == Info(t) && Word(r, 2) == ThirdWord(t)
  {
    HeadInfo(r);
    hide Word, InfoKind, InfoVlen, Info, Every, Pairs, TypeSize;
  }

  lemma HeadInfo(r: seq<byte>)
    requires WholeRecord(r)
    ensures Word(r, 1) == Info(TypeOf(r))
  {
    var info := Word(r, 1);
    InfoRestored(info);
    var t := TypeOf(r);
    assert t.kind == InfoKind(info) && t.vlen == InfoVlen(info) && (t.kflag <==> info / 0x8000_0000 == 1);
    assert t.spare == info / 0x1_0000 % 0x100 + info / 0x2000_0000 % 4 * 0x100;
    hide TypeOf, Word, InfoKind, InfoVlen, KindNumber;
  }

  /** Every word of a whole record is found in the type it stands for. */
  lemma RecordWords(r: seq<byte>, k: nat)
    requires WholeRecord(r) && 4 * k < |r|
    ensures WellFormed(TypeOf(r)) && k < 3 + TailWords(TypeOf(r).kind, TypeOf(r).vlen) && Word(r, k) == WordOf(TypeOf(r), k)
  {
    TypeIsWellFormed(r);
    HeadRestored(r);
    assert TypeOf(r).vlen == InfoVlen(Word(r, 1));
    hide TypeOf, Word, WellFormed, Info, ThirdWord, TailWord, TailWords, InfoKind, InfoVlen;
    if k >= 3 { TailRestored(r, k - 3); }
  }

  lemma TailRestored(r: seq<byte>, k: nat)
    requires WellFormed(TypeOf(r)) && k < TailWords(TypeOf(r).kind, TypeOf(r).vlen)
    ensures Word(r, 3 + k) == TailWord(TypeOf(r), k)
  {
    hide Word, WellFormed, InfoKind, InfoVlen;
  }

  lemma WordsDecide(r: seq<byte>, r': seq<byte>)
    requires IsWord(|r|) && |r| == |r'| && forall k :: 0 <= 4 * k < |r| ==> Word(r, k) == Word(r', k)
    ensures r == r'
  {
    forall i | 0 <= i < |r| ensures r[i] == r'[i] {
      var k := i / 4;
      assert Word(r, k) == Word(r', k);
      WordIsBytes(r, r', 4 * k);
    }
  }

  lemma WordIsBytes(r: seq<byte>, r': seq<byte>, i: nat)
    requires i + 4 <= |r| == |r'| && Le32(r, i) == Le32(r', i)
    ensures forall j :: i <= j < i + 4 ==> r[j] == r'[j]
  {
    assert Le16(r, i) == Le16(r', i) && Le16(r, i + 2) == Le16(r', i + 2);
  }

  /** Two whole records that stand for the same type are the same bytes. */
  lemma TypeOfInjective(r: seq<byte>, r': seq<byte>)
    requires WholeRecord(r) && WholeRecord(r') && TypeOf(r) == TypeOf(r')
    ensures r == r'
  {
    WholeRecordFields(r);
    WholeRecordFields(r');
    Fours(FieldCount(TypeOf(r)));
    hide TypeOf, FieldCount, Word, WordOf, WellFormed, TailWords, WholeRecord, IsWord;
    forall k | 0 <= 4 * k < |r| ensures Word(r, k) == Word(r', k) {
      RecordWords(r, k);
      RecordWords(r', k);
    }
    WordsDecide(r, r');
  }

  function TypesOf(rs: seq<seq<byte>>): (ts: seq<Type>)
    ensures |ts| == |rs| && forall i :: 0 <= i < |ts| ==> ts[i] == TypeOf(rs[i])
  {
    seq(|rs|, i requires 0 <= i < |rs| => TypeOf(rs[i]))
  }

  /** Compaction of the bytes is compaction of the types they stand for. */
  lemma BytesToTypes(g: seq<seq<byte>>, m: seq<nat>, start: nat, out: seq<seq<byte>>, hy: seq<nat>)
    requires Compacted(g, m, start, out, hy)
    ensures Compacted(TypesOf(g), m, start, TypesOf(out), hy)
  {
    hide TypeOf, PlacedAt;
  }
}
