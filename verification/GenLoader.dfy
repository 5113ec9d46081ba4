/** Generation of loader programs (gen_loader.c). */
module GenLoader {
  import opened Numbers
  import opened Loader
  import opened LoaderTypes
  import opened LoaderRuns

  /** Frame offsets of the loader stack. */
  const BTF_FD := -STACK_SZ
  const INNER_MAP_FD := -STACK_SZ + 4

  /** Offsets are 16-bit fields of an instruction. */
  function Signed16(v: int): int {
    var m := v % 0x1_0000;
    if m < 0x8000 then m else m - 0x1_0000
  }

  function ProgFd(i: nat): int { Signed16(-STACK_SZ + 8 + 4 * i) }

  /** Field offsets of an instruction. */
  const REGS_FIELD := 1
  const OFF_FIELD := 2
  const IMM_FIELD := 4
  const INSN_SZ := 8

  /** How the error may change while the instruction after n others is added: it stays, memory runs out or
      the instructions do not fit in 31 bits. */
  predicate AddingError(e0: int, e: int, n: nat) {
    e == e0 || (e0 == 0 && e == ENOMEM) || (e0 == 0 && e == ERANGE && INSN_SZ * (n + 1) > INT32_MAX)
  }

  /** size more bytes, rounded up to eight, do not fit behind len in 31 bits. */
  predicate TooLong(len: nat, size: nat) { len + (size + 7) / 8 * 8 > INT32_MAX }

  /** n is size rounded up to a multiple of eight. */
  predicate IsRounded(size: nat, n: int) { size <= n < size + 8 && n % 8 == 0 }

  predicate IsSimm16(v: int) { -0x8000 <= v <= INT16_MAX }

  // ----- Notes between commands -------------------------------------------------------------------

  predicate AtLeast(i: nat, lo: nat) { i >= lo }

  ghost function Words(lo: nat, hi: nat): set<nat> { set i: nat | i < hi && AtLeast(i, lo) }

  /** Words that are in the loader's stack. */
  ghost function InFrame(lo: nat, hi: nat): set<nat> { Words(lo, if hi <= STACK_WORDS then hi else STACK_WORDS) }

  /** The note in the cleanup block when the stack words below i and the map slots below j have been closed. */
  ghost function CleanNote(i: nat, words: nat, j: nat, maps: nat): Note {
    Note(false, [Unknown, Unknown, Unknown, Unknown, Unknown, Unknown, IsCtx, LastResult, Unknown, Unknown, IsStack(0)],
         Books(InFrame(i, words), Words(j, maps), false, true, Paid, i > STACK_WORDS, words > STACK_WORDS, map[], Anything, map[]))
  }

  /** n and m agree except on some registers. */
  ghost predicate Same(n: Note, m: Note, clobbered: set<nat>) {
    && n.Note? && m.Note? && |n.regs| == |m.regs| == NR_REGS && !n.half && !m.half
    && n.books == m.books
    && forall r :: 0 <= r < NR_REGS && r !in clobbered ==> m.regs[r] == n.regs[r]
  }

  lemma SameTrans(a: Note, b: Note, c: Note, s1: set<nat>, s2: set<nat>, s: set<nat>)
    requires Same(a, b, s1) && Same(b, c, s2) && s1 <= s && s2 <= s
    ensures Same(a, c, s)
  {
  }

  /** What holds between instructions: context in R6, frame pointer in R10. */
  ghost predicate Steady(n: Note) {
    && n.Note? && |n.regs| == NR_REGS && !n.half && n.regs[6] == IsCtx && n.regs[10] == IsStack(0)
  }

  ghost predicate DueFrom(debts: set<Debt>, pc: int) {
    forall d :: d in debts ==> d.target >= pc
  }

  lemma NothingDueAtAll()
    ensures forall pc :: DueFrom({}, pc)
  {
  }

  ghost predicate OneExit(p: seq<Insn>, end: nat) { forall pc :: 0 <= pc < |p| && p[pc] == Exit ==> pc == end - 1 }

  /** The notes on the cleanup block that error checks rely on. */
  ghost predicate CleanupNoted(p: seq<Insn>, notes: seq<Note>, cleanup: nat, end: nat, progs: nat, maps: nat) {
    && Layout(p, cleanup, end) && end < |notes| && ExitNote(notes[end - 1], true, progs) && OneExit(p, end)
    && notes[cleanup] == CleanNote(0, 2 + progs, 0, maps)
  }

  ghost predicate LabelNoted(p: seq<Insn>, notes: seq<Note>, cleanup: nat, progs: nat, maps: nat) {
    cleanup < |p| && |notes| == |p| + 1 && notes[cleanup] == CleanNote(0, 2 + progs, 0, maps)
  }

  lemma LabelNotedMore(p: seq<Insn>, notes: seq<Note>, cleanup: nat, progs: nat, maps: nat, i: Insn, n: Note)
    requires LabelNoted(p, notes, cleanup, progs, maps)
    ensures LabelNoted(p + [i], notes + [n], cleanup, progs, maps) && LabelNoted(p, notes[|p| := n], cleanup, progs, maps)
  {
    hide CleanNote;
  }

  lemma CleanupNotedMore(p: seq<Insn>, notes: seq<Note>, cleanup: nat, end: nat, progs: nat, maps: nat, i: Insn, n: Note)
    requires CleanupNoted(p, notes, cleanup, end, progs, maps) && |notes| == |p| + 1
    requires i != Exit && (IsJump(i) ==> i.off >= 0 || |p| + 1 + i.off == cleanup)
    ensures CleanupNoted(p + [i], notes + [n], cleanup, end, progs, maps)
  {
    LayoutMore(p, cleanup, end, i);
    hide Layout, CleanNote;
  }

  lemma CleanupNotedLand(p: seq<Insn>, notes: seq<Note>, cleanup: nat, end: nat, progs: nat, maps: nat, n: Note)
    requires CleanupNoted(p, notes, cleanup, end, progs, maps) && |notes| == |p| + 1
    ensures CleanupNoted(p, notes[|p| := n], cleanup, end, progs, maps)
  {
    hide CleanNote;
  }

  ghost function WithReg(n: Note, d: nat, t: RegType): Note
    requires n.Note? && d < |n.regs|
  {
    n.(regs := n.regs[d := t])
  }

  /** n without what it says about some registers. */
  ghost function Blurred(n: Note, rs: set<nat>): Note
    requires n.Note? && |n.regs| == NR_REGS
  {
    n.(regs := seq(NR_REGS, r requires 0 <= r < NR_REGS => if r in rs then Unknown else n.regs[r]))
  }

  lemma BlurredWell(n: Note, rs: set<nat>)
    requires n.Note? && WellNote(n) && |n.regs| == NR_REGS
    ensures WellNote(Blurred(n, rs)) && Weaker(n, Blurred(n, rs))
  {
  }

  /** n when the place that R1 was loaded from has been closed. */
  ghost function Freed(n: Note): Note
    requires n.Note? && |n.regs| == NR_REGS
  {
    n.(books := Released(n.books, n.regs[1]))
  }

  ghost function FreedSlot(n: Note, off: int): Note
    requires n.Note?
  {
    if IsSlot(W, off) then n.(books := Released(n.books, SlotValue(off / 4))) else n
  }

  /** n when a register has been loaded from the stack. */
  ghost function WordLoaded(n: Note, d: nat, off: int): Note
    requires n.Note? && d < |n.regs|
  {
    if IsStackWord(W, off) then WithReg(n, d, StackValue(StackWord(off)))
    else WithReg(n.(books := Strayed(n.books)), d, Number)
  }

  /** n when something has been copied into the context. */
  ghost function CopiedTo(n: Note, off: int, t: RegType): Note
    requires n.Note?
  {
    n.(books := CtxStored(n.books, off, t))
  }

  /** n when the last result has been checked. */
  ghost function Checked(n: Note): Note
    requires n.Note?
  {
    n.(books := n.books.(owes := Paid))
  }

  /** b when the last result has been stored in a stack word. */
  ghost function WordStored(b: Books, off: int): Books {
    if IsStackWord(W, off) then StackStored(b, StackWord(off)) else Strayed(b).(pend := false)
  }

  /** What a call leaves to be checked. */
  function OwesAfter(q: Request): Owes {
    match q
    case Bpf(_) => Due
    case Find(optional) => if optional then Paid else Due
    case Symbol => DueUnlessMissing
  }

  /** b after a call whose result is kept. */
  function AfterRequest(b: Books, q: Request): Books {
    b.(pend := q.Bpf? && Opens(q.cmd), owes := OwesAfter(q), asked := Asking(b.asked, q))
  }

  /** The request that a call makes. */
  ghost function Requested(n: Note, h: Helper): Request
    requires n.Note? && |n.regs| == NR_REGS
  {
    match h
    case FindByNameKind(optional) => Find(optional)
    case SysBpf => Bpf(if n.regs[1].Const? then n.regs[1].v else 0)
    case _ => Symbol
  }

  /** The last result needs no place, and owes says what remains to be checked about it. */
  ghost predicate Waiting(n: Note, owes: Owes) { n.Note? && !n.books.pend && !n.books.neg && n.books.owes == owes }

  /** m follows n after a call whose result is kept. */
  ghost predicate HasResult(n: Note, m: Note, q: Request) {
    && n.Note? && m.Note? && |n.regs| == |m.regs| == NR_REGS && !m.half
    && m.books == AfterRequest(n.books, q) && !m.books.neg
    && m.regs[6] == n.regs[6] && m.regs[10] == n.regs[10]
    && (n.regs[8].IsBlob? ==> m.regs[8] == n.regs[8])
  }

  function DebugLen(logLevel: int, reg1: int, reg2: int): nat {
    if logLevel == 0 then 0 else 4 + (if reg1 >= 0 then 1 else 0) + (if reg2 >= 0 then 1 else 0)
  }

  /** The skip, the copy, the call and, when logging, six instructions to print. */
  function CloseLen(logLevel: int): nat { 3 + if logLevel != 0 then 6 else 0 }

  /** What was appended to p0 may stand in the cleanup block. */
  predicate PieceOk(p: seq<Insn>, pc: nat)
    requires pc < |p|
  {
    (IsJump(p[pc]) ==> p[pc].off >= 0 && pc + 1 + p[pc].off <= |p|) && !SetsResult(p[pc]) && !p[pc].Exit?
  }

  ghost predicate Pieces(p0: seq<Insn>, p: seq<Insn>) {
    p0 <= p && forall pc :: |p0| <= pc < |p| ==> PieceOk(p, pc)
  }

  lemma PiecesMore(p0: seq<Insn>, p: seq<Insn>, i: Insn, p': seq<Insn>)
    requires (p == p0 || Pieces(p0, p)) && !IsJump(i) && !SetsResult(i) && !i.Exit? && p' == p + [i]
    ensures Pieces(p0, p')
  {
    forall pc | |p0| <= pc < |p'| ensures PieceOk(p', pc) {
      if pc < |p| { assert PieceOk(p, pc); }
    }
  }

  lemma PiecesLoad(p: seq<Insn>, d: nat, addr: int, p': seq<Insn>)
    requires p' == p + [LoadBlob(d, addr), LoadBlobHi]
    ensures Pieces(p, p')
  {
  }

  lemma PiecesRefl(p: seq<Insn>)
    ensures Pieces(p, p)
  {
  }

  lemma PiecesPrefix(p0: seq<Insn>, p: seq<Insn>)
    requires Pieces(p0, p)
    ensures p0 <= p
  {
  }

  lemma OpenedIsOpen(b: Books, t: RegType)
    ensures IsOpen(Opened(t)) && Released(b, Opened(t)) == Released(b, t)
  {
  }

  lemma CloseStarts(p0: seq<Insn>, i: Insn, p: seq<Insn>)
    requires p0 + [i] + [MovReg(9, 1), Call(SysClose)] <= p && i.Jmp? && i.cond == Jsle && i.dst == 1 && i.imm == 0
    ensures p0 <= p && ClosesR1(p, |p0|)
  {
    var q := p0 + [i] + [MovReg(9, 1), Call(SysClose)];
    assert p[|p0|] == q[|p0|] && p[|p0| + 1] == q[|p0| + 1] && p[|p0| + 2] == q[|p0| + 2];
  }

  lemma PlaceStarts(p0: seq<Insn>, p2: seq<Insn>, p: seq<Insn>, addr: int)
    requires p2 == p0 + [LoadBlob(0, addr), LoadBlobHi, Ldx(W, 1, 0, 0)] && p2 <= p && ClosesR1(p, |p2|)
    ensures p0 <= p && ClosesPlace(p, |p0|, addr)
  {
    assert p[|p0|..|p0| + 3] == p2[|p0|..|p0| + 3];
  }

  lemma PiecesTrans(p0: seq<Insn>, p1: seq<Insn>, p2: seq<Insn>)
    requires Pieces(p0, p1) && Pieces(p1, p2)
    ensures Pieces(p0, p2)
  {
    forall pc | |p0| <= pc < |p2| ensures PieceOk(p2, pc) {
      if pc < |p1| { assert PieceOk(p1, pc) && p2[pc] == p1[pc]; }
    }
  }

  /** A jump just over the pieces that follow it. */
  lemma PiecesJump(p0: seq<Insn>, i: Insn, p1: seq<Insn>, p2: seq<Insn>)
    requires p1 == p0 + [i] && IsJump(i) && Pieces(p1, p2) && 0 <= i.off && |p0| + 1 + i.off <= |p2|
    ensures Pieces(p0, p2)
  {
    forall pc | |p0| <= pc < |p2| ensures PieceOk(p2, pc) {
      if pc == |p0| { assert p2[pc] == p1[pc]; }
    }
  }

  /** Code that closes what R1 holds if it is positive. */
  predicate ClosesR1(p: seq<Insn>, pc: int) {
    && 0 <= pc && pc + 3 <= |p| && p[pc].Jmp? && p[pc].cond == Jsle && p[pc].dst == 1 && p[pc].imm == 0
    && p[pc + 1] == MovReg(9, 1) && p[pc + 2] == Call(SysClose)
  }

  /** Code that closes the descriptor at a place in the data, if there is one. */
  predicate ClosesPlace(p: seq<Insn>, pc: int, addr: int) {
    0 <= pc && pc + 6 <= |p| && p[pc..pc + 3] == [LoadBlob(0, addr), LoadBlobHi, Ldx(W, 1, 0, 0)] && ClosesR1(p, pc + 3)
  }

  ghost predicate ClosedAfter(p: seq<Insn>, lo: nat, addr: int) { exists pc :: lo <= pc && ClosesPlace(p, pc, addr) }

  lemma ClosedLater(p: seq<Insn>, p': seq<Insn>, lo: nat, lo': nat, addr: int)
    requires p <= p' && lo' <= lo && ClosedAfter(p, lo, addr)
    ensures ClosedAfter(p', lo', addr)
  {
    var pc :| lo <= pc && ClosesPlace(p, pc, addr);
    assert p'[pc..pc + 3] == p[pc..pc + 3];
    assert ClosesPlace(p', pc, addr);
  }

  /** Code that copies a value from one place in the data to another. */
  function CopyCode(to: int, size: Size, from: int): seq<Insn> {
    [LoadBlob(2, from), LoadBlobHi, Ldx(size, 0, 2, 0), LoadBlob(1, to), LoadBlobHi, Stx(size, 1, 0, 0)]
  }

  /** Code that stores the address of a place in the data at another one. */
  function PointerCode(to: int, data: int): seq<Insn> {
    [LoadBlob(0, data), LoadBlobHi, LoadBlob(1, to), LoadBlobHi, Stx(DW, 1, 0, 0)]
  }

  /** Code that copies a stack word into the data. */
  function StackCode(to: int, from: int): seq<Insn> {
    [Ldx(W, 0, 10, from), LoadBlob(1, to), LoadBlobHi, Stx(W, 1, 0, 0)]
  }

  /** Code that copies a value from the context into the data, if asked only unless it is zero. */
  function CtxCode(to: int, size: Size, from: int, checkNonZero: bool): seq<Insn> {
    [Ldx(size, 0, 6, from)] + (if checkNonZero then [Jmp(Jeq, 0, 0, 3)] else []) + [LoadBlob(1, to), LoadBlobHi, Stx(size, 1, 0, 0)]
  }

  /** Code that copies the log settings into the attributes. */
  function LogCode(levelOff: int, sizeOff: int, bufOff: int): seq<Insn> {
    CtxCode(levelOff, W, CTX_LOG_LEVEL, false) + CtxCode(sizeOff, W, CTX_LOG_SIZE, false) + CtxCode(bufOff, DW, CTX_LOG_BUF, false)
  }

  /** Code that fills the attributes of a map. */
  function MapAttrCode(attr: int, ofMaps: bool, hasValueType: bool, mapIdx: int): seq<Insn> {
    (if hasValueType then StackCode(attr + 48, BTF_FD) else []) + (if ofMaps then StackCode(attr + 20, INNER_MAP_FD) else []) +
    (if mapIdx >= 0 then CtxCode(attr + 12, W, Signed16(CTX_SZ + MAP_DESC_SZ * mapIdx + 4), true) else [])
  }

  /** Code that fills the attributes of BTF data. */
  function BtfAttrCode(attr: int, data: int): seq<Insn> {
    LogCode(attr + 24, attr + 20, attr + 8) + PointerCode(attr, data)
  }

  /** Code that fills the attributes of a program. */
  function ProgAttrCode(attr: int, license: int, code: int, funcInfo: int, lineInfo: int, coreRelos: int, fds: int): seq<Insn> {
    PointerCode(attr + 16, license) + PointerCode(attr + 8, code) + PointerCode(attr + 80, funcInfo) +
    PointerCode(attr + 96, lineInfo) + PointerCode(attr + 128, coreRelos) + PointerCode(attr + 120, fds) +
    LogCode(attr + 24, attr + 28, attr + 32) + StackCode(attr + 72, BTF_FD)
  }

  /** Code that takes the initial value of a map from the kernel or from user space, if the context gives one. */
  function InitialCode(mapIdx: nat, value: int, size: int): seq<Insn> {
    [Ldx(DW, 3, 6, Signed16(CTX_SZ + MAP_DESC_SZ * mapIdx + 8)), Jmp(Jeq, 3, 0, 8)] +
    ReadArgsCode(value, size) + ReadCode()
  }

  function ReadArgsCode(value: int, size: int): seq<Insn> {
    [LoadBlob(1, value), LoadBlobHi, MovImm(2, size), Ldx(W, 0, 6, CTX_FLAGS)]
  }

  function ReadCode(): seq<Insn> {
    [Jmp(Jset, 0, SKEL_KERNEL, 2), Call(CopyFromUser), Ja(1), Call(ProbeReadKernel)]
  }

  /** From p0 to p: a map is created with the BTF data, the inner map and the number of entries that apply. */
  ghost predicate CreatesMap(p0: seq<Insn>, p: seq<Insn>, ofMaps: bool, hasValueType: bool, mapIdx: int) {
    exists attr :: p0 + MapAttrCode(attr, ofMaps, hasValueType, mapIdx) + AskCode(MAP_CREATE, attr, 72) <= p
  }

  /** From p0 to p: the BTF data at data is loaded with the log settings of the context. */
  ghost predicate LoadsBtf(p0: seq<Insn>, p: seq<Insn>, data: int) {
    exists attr :: p0 + BtfAttrCode(attr, data) + AskCode(BTF_LOAD, attr, 28) <= p
  }

  /** Code that issues a command on the attributes at attr and keeps its result. */
  function AskCode(cmd: int, attr: int, attrSize: int): seq<Insn> {
    [MovImm(1, cmd), LoadBlob(2, attr), LoadBlobHi, MovImm(3, attrSize), Call(SysBpf), MovReg(7, 0)]
  }

  /** From p0 to p: the descriptor found at mapFd and the addresses of key and value go into the attributes
      of an update command. */
  ghost predicate UpdatesMap(p0: seq<Insn>, p: seq<Insn>, mapFd: int, key: int, value: int) {
    exists attr :: p0 + (CopyCode(attr, W, mapFd) + PointerCode(attr + 8, key) + PointerCode(attr + 16, value)) + AskCode(MAP_UPDATE_ELEM, attr, 32) <= p
  }

  /** From p0 to p: the descriptor found at mapFd goes into the attributes of a freeze command. */
  ghost predicate FreezesMap(p0: seq<Insn>, p: seq<Insn>, mapFd: int) {
    exists attr :: p0 + CopyCode(attr, W, mapFd) + AskCode(MAP_FREEZE, attr, 4) <= p
  }

  /** From p0 to p: the value at value is stored in the map whose descriptor is found at mapFd. */
  ghost predicate SetsMap(p0: seq<Insn>, p: seq<Insn>, mapFd: int, value: int) {
    exists key: int :: UpdatesMap(p0, p, mapFd, key, value)
  }

  /** Blob addresses that may be read, and what reading yields. */
  predicate Readable(size: Size, addr: int) { IsSlot(size, addr) || IsElsewhere(addr) }

  function ReadType(size: Size, addr: int): RegType
    requires Readable(size, addr)
  {
    if IsSlot(size, addr) then SlotValue(addr / 4) else Number
  }

  /** What is being generated. */
  datatype Stage = Starting | Cleaning | Loading | Ending

  /** A relocation asked for by a program, and a symbol already resolved for it. */
  datatype Relo = Relo(name: string, kind: int, insnIdx: nat, isWeak: bool, isTypeless: bool, isLd64: bool)

  datatype Ksym = Ksym(name: string, kind: int, isLd64: bool, ref: nat, off: nat, typeless: bool, insn: nat)

  ghost predicate KsymsOk(ks: seq<Ksym>) {
    forall k :: 0 <= k < |ks| ==> IsElsewhere(ks[k].insn) && ks[k].ref >= 1
  }

  /** A symbol that has not been resolved yet. */
  function NewKsym(r: Relo, typeless: bool): Ksym { Ksym(r.name, r.kind, r.isLd64, 1, 0, typeless, 0) }

  predicate UsesFdArray(k: Ksym) { !k.isLd64 && k.off < MAX_FD_ARRAY_SZ }

  /** Symbols that may have a descriptor, and where it is: in the instruction or in the fd array. */
  predicate HoldsFd(k: Ksym) { !k.isLd64 || !k.typeless }

  function FdPlace(k: Ksym): int { if k.isLd64 then k.insn + INSN_SZ + IMM_FIELD else 4 * k.off }

  ghost predicate AllClosed(ks: seq<Ksym>, n: nat, p: seq<Insn>, lo: nat) {
    forall j :: 0 <= j < n && j < |ks| && HoldsFd(ks[j]) ==> ClosedAfter(p, lo, FdPlace(ks[j]))
  }

  lemma OneMoreClosed(ks: seq<Ksym>, i: nat, p: seq<Insn>, p': seq<Insn>, lo: nat)
    requires i < |ks| && AllClosed(ks, i, p, lo) && p <= p' && lo <= |p|
    requires HoldsFd(ks[i]) ==> ClosedAfter(p', |p|, FdPlace(ks[i]))
    ensures AllClosed(ks, i + 1, p', lo)
  {
    hide ClosedAfter;
    forall j | 0 <= j < i + 1 && HoldsFd(ks[j]) ensures ClosedAfter(p', lo, FdPlace(ks[j])) {
      if j < i { ClosedLater(p, p', lo, lo, FdPlace(ks[j])); } else { ClosedLater(p', p', |p|, lo, FdPlace(ks[j])); }
    }
  }

  /** How many symbols take an entry of the fd array. */
  ghost function FdArrayUse(ks: seq<Ksym>): nat {
    if ks == [] then 0 else (if UsesFdArray(ks[0]) then 1 else 0) + FdArrayUse(ks[1..])
  }

  lemma {:induction false} FdArrayUseUpdate(ks: seq<Ksym>, k: nat, v: Ksym)
    requires k < |ks|
    ensures FdArrayUse(ks[k := v]) == FdArrayUse(ks) - (if UsesFdArray(ks[k]) then 1 else 0) + (if UsesFdArray(v) then 1 else 0)
    decreases |ks|
  {
    var ks' := ks[k := v];
    if k == 0 {
      assert ks'[1..] == ks[1..];
    } else {
      assert ks'[1..] == ks[1..][k - 1 := v];
      FdArrayUseUpdate(ks[1..], k - 1, v);
    }
  }

  lemma {:induction false} FdArrayUseMore(ks: seq<Ksym>, v: Ksym)
    ensures FdArrayUse(ks + [v]) == FdArrayUse(ks) + (if UsesFdArray(v) then 1 else 0)
    decreases |ks|
  {
    if ks == [] {
      assert ks + [v] == [v];
    } else {
      assert (ks + [v])[1..] == ks[1..] + [v];
      FdArrayUseMore(ks[1..], v);
    }
  }

  lemma FdArrayUseFront(ks: seq<Ksym>, i: nat)
    requires i < |ks|
    ensures FdArrayUse(ks[i..]) == (if UsesFdArray(ks[i]) then 1 else 0) + FdArrayUse(ks[i + 1..])
  {
    assert ks[i..][0] == ks[i] && ks[i..][1..] == ks[i + 1..];
  }

  lemma NoFdArrayUse(ks: seq<Ksym>)
    ensures ks == [] ==> FdArrayUse(ks) == 0
  {
  }

  /** The entries of the fd array in use are those of known symbols. */
  ghost predicate SymbolsOk(ks: seq<Ksym>, used: int) {
    KsymsOk(ks) && used == FdArrayUse(ks) <= MAX_KFUNC_DESCS
  }

  /** Live descriptors are only where a cleanup block for so many programs and maps looks. */
  ghost predicate FitsIn(b: Books, progs: nat, maps: nat) {
    b.stk <= InFrame(0, 2 + progs) && b.maps <= Words(0, maps) && (b.may ==> progs > MAX_USED_PROGS)
  }

  /** b looks for descriptors in no more places than a. */
  ghost predicate Narrowed(a: Books, b: Books) {
    b.stk <= a.stk && b.maps <= a.maps && b.out == a.out && b.must == a.must && b.may == a.may && b.held == a.held
  }

  lemma NarrowedRefl(b: Books)
    ensures Narrowed(b, b)
  {
  }

  lemma NarrowedAll(a: Books, b: Books, c: Books, d: Books)
    requires Narrowed(a, b) && Narrowed(b, c) && Narrowed(c, d)
    ensures Narrowed(a, d) && Narrowed(a, d.(owes := Paid))
  {
  }

  lemma FitsFreed(n: Note, addr: int, progs: nat, maps: nat)
    requires n.Note? && FitsIn(n.books, progs, maps)
    ensures FitsIn(FreedSlot(n, addr).books, progs, maps) && Narrowed(n.books, FreedSlot(n, addr).books)
  {
  }

  /** m looks for descriptors in no more places than n, for the same pending result. */
  ghost predicate FewerPlaces(n: Note, m: Note) {
    n.Note? && m.Note? && Narrowed(n.books, m.books) && m.books.pend == n.books.pend && m.books.owes == n.books.owes
    && m.books.asked == n.books.asked
  }

  ghost predicate SamePlaces(n: Note, m: Note) { n.Note? && m.Note? && m.books == n.books.(asked := m.books.asked) }

  /** The places of programs and maps hold the answers to given calls. */
  ghost predicate HeldProgs(held: map<RegType, nat>, calls: seq<nat>) {
    forall k: nat :: k < |calls| && k < MAX_USED_PROGS ==> ProgPlace(k) in held && held[ProgPlace(k)] == calls[k]
  }

  /** Where the loader keeps the descriptor of program k. */
  function ProgPlace(k: nat): RegType { StackValue(2 + k) }

  ghost predicate HeldMaps(held: map<RegType, nat>, calls: seq<nat>) {
    forall k: nat :: k < |calls| ==> SlotValue(k) in held && held[SlotValue(k)] == calls[k]
  }

  /** calls are places of a command among the requests, in order. */
  ghost predicate CallsOf(requests: seq<Request>, calls: seq<nat>, cmd: int) {
    && (forall k :: 0 <= k < |calls| ==> calls[k] < |requests| && requests[calls[k]] == Bpf(cmd))
    && (forall j, k :: 0 <= j < k < |calls| ==> calls[j] < calls[k])
  }

  lemma CallsMore(requests: seq<Request>, more: seq<Request>, calls: seq<nat>, cmd: int)
    requires CallsOf(requests, calls, cmd) && requests <= more
    ensures CallsOf(more, calls, cmd)
  {
  }

  lemma NotYet(requests: seq<Request>, calls: seq<nat>, cmd: int)
    requires CallsOf(requests, calls, cmd)
    ensures |requests| !in calls
  {
  }

  lemma LastCall(requests: seq<Request>, calls: seq<nat>, cmd: int)
    requires CallsOf(requests, calls, cmd) && requests != [] && requests[|requests| - 1] == Bpf(cmd) && |requests| - 1 !in calls
    ensures CallsOf(requests, calls + [|requests| - 1], cmd)
  {
    forall k | 0 <= k < |calls| ensures calls[k] < |requests| - 1 { assert calls[k] in calls; }
  }

  lemma OneMoreCall(requests: seq<Request>, more: seq<Request>, calls: seq<nat>, cmd: int)
    requires CallsOf(requests, calls, cmd) && requests <= more && |more| > |requests| && more[|more| - 1] == Bpf(cmd)
    ensures CallsOf(more, calls + [|more| - 1], cmd)
  {
  }

  // ----- What relocations ask for -----------------------------------------------------------------

  /** What tells symbols apart. */
  datatype SymbolKey = SymbolKey(name: string, kind: int, isLd64: bool)

  function KeyOf(k: Ksym): SymbolKey { SymbolKey(k.name, k.kind, k.isLd64) }

  function ReloKey(r: Relo): SymbolKey { SymbolKey(r.name, r.kind, r.isLd64) }

  ghost function Keys(ks: seq<Ksym>): set<SymbolKey> { set k | 0 <= k < |ks| :: KeyOf(ks[k]) }

  /** The lookup for a symbol that is not known yet. */
  function LookupOf(r: Relo): Request { if r.isLd64 && r.isTypeless then Symbol else Find(r.isWeak) }

  ghost function NewLookup(r: Relo, known: set<SymbolKey>): seq<Request> { if ReloKey(r) in known then [] else [LookupOf(r)] }

  ghost function ReloKeys(relos: seq<Relo>): set<SymbolKey> { set i | 0 <= i < |relos| :: ReloKey(relos[i]) }

  /** One lookup for each symbol, where it is first needed. */
  ghost function Lookups(relos: seq<Relo>): seq<Request>
    decreases |relos|
  {
    if relos == [] then []
    else
      var last := |relos| - 1;
      Lookups(relos[..last]) + NewLookup(relos[last], ReloKeys(relos[..last]))
  }

  /** What loading a program asks for. */
  ghost function ProgRequests(attachKind: int, relos: seq<Relo>): seq<Request> {
    (if attachKind != 0 then [Find(false)] else []) + Lookups(relos) + [Bpf(PROG_LOAD)]
  }

  lemma RequestsJoin(before: seq<Request>, attachKind: int, relos: seq<Relo>)
    ensures before + (if attachKind != 0 then [Find(false)] else []) + Lookups(relos) + [Bpf(PROG_LOAD)]
            == before + ProgRequests(attachKind, relos)
    ensures attachKind == 0 ==> before + [] == before
  {
  }

  lemma LookupsMore(relos: seq<Relo>, i: nat)
    requires i < |relos|
    ensures Lookups(relos[..i + 1]) == Lookups(relos[..i]) + NewLookup(relos[i], ReloKeys(relos[..i]))
    ensures ReloKeys(relos[..i + 1]) == ReloKeys(relos[..i]) + {ReloKey(relos[i])}
  {
    var more := relos[..i + 1];
    assert more[..i] == relos[..i] && more[i] == relos[i];
    forall k ensures k in ReloKeys(more) <==> k in ReloKeys(relos[..i]) + {ReloKey(relos[i])} {
      if k in ReloKeys(relos[..i]) {
        var j :| 0 <= j < i && k == ReloKey(relos[..i][j]);
        assert ReloKey(more[j]) == k;
      }
      assert ReloKey(more[i]) in ReloKeys(more);
    }
  }

  lemma SameKeys(ks: seq<Ksym>, k: nat, v: Ksym)
    requires k < |ks| && KeyOf(v) == KeyOf(ks[k])
    ensures Keys(ks[k := v]) == Keys(ks)
  {
    var ks' := ks[k := v];
    forall key ensures key in Keys(ks') <==> key in Keys(ks) {
      if key in Keys(ks) {
        var j :| 0 <= j < |ks| && key == KeyOf(ks[j]);
        assert KeyOf(ks'[j]) == key;
      }
      if key in Keys(ks') {
        var j :| 0 <= j < |ks'| && key == KeyOf(ks'[j]);
        assert KeyOf(ks[j]) == key;
      }
    }
  }

  lemma KeyKept(k: Ksym, idx: nat)
    ensures KeyOf(k.(off := idx)) == KeyOf(k)
  {
  }

  /** What the search for a symbol tells about its key. */
  lemma FoundKey(ks: seq<Ksym>, ks': seq<Ksym>, k: nat, r: Relo)
    requires k <= |ks| && k < |ks'| && KeyOf(ks'[k]) == ReloKey(r) && forall j :: 0 <= j < k ==> KeyOf(ks[j]) != ReloKey(r)
    requires k < |ks| ==> ks' == ks[k := ks[k].(ref := ks[k].ref + 1)]
    requires k == |ks| ==> |ks'| == |ks| + 1 && ks'[..k] == ks
    ensures NewLookup(r, Keys(ks)) == (if k < |ks| then [] else [LookupOf(r)]) && Keys(ks') == Keys(ks) + {ReloKey(r)}
  {
    if k < |ks| { assert KeyOf(ks[k]) == ReloKey(r); }
    forall j | 0 <= j < |ks| ensures KeyOf(ks'[j]) == KeyOf(ks[j]) {
      if k == |ks| { assert ks'[..k][j] == ks[j]; }
    }
    KeysMore(ks, ks', ReloKey(r));
  }

  lemma NoLookups(relos: seq<Relo>)
    ensures Lookups(relos[..0]) == [] && ReloKeys(relos[..0]) == Keys([])
  {
  }

  lemma KeysMore(ks: seq<Ksym>, ks': seq<Ksym>, key: SymbolKey)
    requires |ks| <= |ks'| && forall j :: 0 <= j < |ks| ==> KeyOf(ks'[j]) == KeyOf(ks[j])
    requires |ks'| == |ks| ==> key in Keys(ks)
    requires |ks'| == |ks| || (|ks'| == |ks| + 1 && KeyOf(ks'[|ks|]) == key)
    ensures Keys(ks') == Keys(ks) + {key}
  {
    forall k ensures k in Keys(ks') <==> k in Keys(ks) + {key} {
      if k in Keys(ks) {
        var j :| 0 <= j < |ks| && k == KeyOf(ks[j]);
        assert KeyOf(ks'[j]) == k;
      }
      if k in Keys(ks') {
        var j :| 0 <= j < |ks'| && k == KeyOf(ks'[j]);
        if j < |ks| { assert KeyOf(ks[j]) == k; }
      }
      if |ks'| > |ks| { assert KeyOf(ks'[|ks|]) == key; }
    }
  }

  class Gen {
    var insns: seq<Insn>
    var dataLen: nat
    var error: int
    var logLevel: int
    var cleanupLabel: nat
    var nrMaps: nat
    var nrProgs: nat
    var fdArray: nat
    var nrFdArray: int
    var relos: seq<Relo>
    var ksyms: seq<Ksym>
    var coreReloCnt: nat
    var attachKind: int
    var attachLen: nat
    ghost var notes: seq<Note>
    ghost var debts: set<Debt>
    ghost var stage: Stage
    ghost var cleanupEnd: nat
    ghost var initProgs: nat
    ghost var initMaps: nat
    ghost var btfLoaded: bool
    ghost var innerOpen: bool
    ghost var reused: bool
    ghost var requests: seq<Request>
    ghost var progCalls: seq<nat>
    ghost var mapCalls: seq<nat>

    /** Nothing has gone wrong and what has been generated fits what the caller announced. */
    ghost predicate Guard()
      reads this`error, this`initMaps, this`nrMaps, this`nrProgs, this`initProgs, this`logLevel, this`reused
    {
      && error == 0 && initMaps <= MAX_USED_MAPS && nrMaps <= initMaps && nrProgs <= initProgs
      && Skippable(initProgs, initMaps, logLevel) && !reused
    }

    ghost function Cur(): Note
      reads this`insns, this`notes
    {
      if |insns| < |notes| then notes[|insns|] else Dead
    }

    /** The instructions so far fit their notes. */
    ghost predicate Typing()
      reads this`insns, this`notes, this`debts, this`stage, this`cleanupLabel, this`cleanupEnd, this`initProgs, this`initMaps
    {
      && |notes| == |insns| + 1 && WellNote(Cur()) && Typed(insns, notes, debts)
      && (stage == Cleaning ==> LabelNoted(insns, notes, cleanupLabel, initProgs, initMaps))
      && (stage == Loading ==> CleanupNoted(insns, notes, cleanupLabel, cleanupEnd, initProgs, initMaps))
    }

    /** Makes room for one more instruction. */
    method Reserve() returns (ok: bool)
      modifies this`error
      ensures ok ==> error == old(error) == 0
      ensures !ok ==> error != 0
      ensures old(error) != 0 ==> error == old(error)
      ensures old(error) == 0 ==> (error == ERANGE <==> INSN_SZ * (|insns| + 1) > INT32_MAX) && (error == 0 || error == ERANGE || error == ENOMEM)
    {
      if error != 0 { return false; }
      if INSN_SZ * (|insns| + 1) > INT32_MAX {
        error := ERANGE;
        return false;
      }
      var outOfMemory: bool := *;
      if outOfMemory {
        error := ENOMEM;
        return false;
      }
      return true;
    }

    /** Appends an instruction that does not jump. */
    method Emit(i: Insn)
      requires Guard() ==> Typing() && Cur().Note? && DueFrom(debts, |insns| + 1) && !IsJump(i) && FlowOn(i, Cur()).To?
      requires Guard() && stage == Loading ==> i != Exit
      modifies this`insns, this`notes, this`error
      ensures Guard() ==> old(Guard()) && Typing()
      ensures Guard() ==> |insns| == old(|insns|) + 1 && Cur() == FlowOn(i, old(Cur())).note
      ensures Guard() ==> insns == old(insns) + [i] && notes == old(notes) + [Cur()]
      ensures error == 0 ==> old(error) == 0 && insns == old(insns) + [i]
      ensures AddingError(old(error), error, old(|insns|))
    {
      hide FlowOn, Typed, CleanupNoted, LabelNoted;
      var ok := Reserve();
      if !ok { return; }
      if Guard() {
        AppendKeeps(insns, notes, debts, i);
        FlowIsWell(i, Cur());
        var n := FlowOn(i, Cur()).note;
        if stage == Cleaning { LabelNotedMore(insns, notes, cleanupLabel, initProgs, initMaps, i, n); }
        if stage == Loading { CleanupNotedMore(insns, notes, cleanupLabel, cleanupEnd, initProgs, initMaps, i, n); }
        notes := notes + [n];
      }
      insns := insns + [i];
    }

    /** Appends a jump: forward, leaving a debt at its target, or back to the cleanup block. */
    method EmitJump(i: Insn)
      requires IsJump(i)
      requires Guard() ==> Typing() && Cur().Note? && DueFrom(debts, |insns| + 1) && FlowOn(i, Cur()).To?
      requires Guard() && i.off < 0 ==>
                 stage == Loading && |insns| + 1 + i.off == cleanupLabel && Weaker(FlowJump(i, Cur()), notes[cleanupLabel])
      modifies this`insns, this`notes, this`error, this`debts
      ensures Guard() ==> old(Guard()) && Typing()
      ensures Guard() ==> |insns| == old(|insns|) + 1 && Cur() == FlowOn(i, old(Cur())).note
      ensures Guard() ==> insns == old(insns) + [i]
      ensures error == 0 ==> old(error) == 0 && insns == old(insns) + [i]
      ensures Guard() ==> debts == if i.off < 0 then old(debts) else old(debts) + {Debt(old(|insns|) + 1 + i.off, FlowJump(i, old(Cur())))}
      ensures AddingError(old(error), error, old(|insns|))
    {
      hide FlowOn, FlowJump, Typed, CleanupNoted, LabelNoted, Weaker;
      var ok := Reserve();
      if !ok { return; }
      if Guard() {
        var debts' := if i.off < 0 then debts else debts + {Debt(|insns| + 1 + i.off, FlowJump(i, Cur()))};
        if i.off < 0 { LabelInRange(insns, notes, cleanupLabel, cleanupEnd, initProgs, initMaps); }
        AppendJumpKeeps(insns, notes, debts, i, debts');
        FlowIsWell(i, Cur());
        var n := FlowOn(i, Cur()).note;
        if stage == Cleaning { LabelNotedMore(insns, notes, cleanupLabel, initProgs, initMaps, i, n); }
        if stage == Loading { CleanupNotedMore(insns, notes, cleanupLabel, cleanupEnd, initProgs, initMaps, i, n); }
        notes, debts := notes + [n], debts';
      }
      insns := insns + [i];
    }

    /** Paths meet here: the note becomes n, which fits all of them. */
    ghost method Land(n: Note)
      requires Guard() ==> Typing() && WellNote(n) && Weaker(Cur(), n) && |insns| > 0
      requires Guard() ==> forall d :: d in debts && d.target == |insns| ==> Weaker(d.note, n)
      modifies this`notes, this`debts
      ensures Guard() <==> old(Guard())
      ensures Guard() ==> Typing() && Cur() == n && debts == set d | d in old(debts) && d.target != |insns|
    {
      hide Typed, WellNote, CleanupNoted, LabelNoted, Weaker;
      if Guard() {
        var debts' := set d | d in debts && d.target != |insns|;
        LandKeeps(insns, notes, debts, n, debts');
        if stage == Cleaning { LabelNotedMore(insns, notes, cleanupLabel, initProgs, initMaps, Exit, n); }
        if stage == Loading { CleanupNotedLand(insns, notes, cleanupLabel, cleanupEnd, initProgs, initMaps, n); }
        notes, debts := notes[|insns| := n], debts';
      }
    }

    /** Paths meet that differ at most in what some registers hold. */
    ghost method Meet(rs: set<nat>)
      requires 6 !in rs && 10 !in rs
      requires Guard() ==> Typing() && Steady(Cur()) && |insns| > 0
      requires Guard() ==> forall d :: d in debts && d.target == |insns| ==> Same(Cur(), d.note, rs)
      modifies this`notes, this`debts
      ensures Guard() <==> old(Guard())
      ensures Guard() ==> Typing() && Steady(Cur()) && Cur() == Blurred(old(Cur()), rs) && Same(old(Cur()), Cur(), rs)
      ensures Guard() ==> debts == set d | d in old(debts) && d.target != |insns|
    {
      hide Typed, CleanupNoted, WellNote, Gen.Guard;
      if Guard() {
        BlurredWell(Cur(), rs);
        Land(Blurred(Cur(), rs));
      }
    }

    lemma CurWell()
      requires Typing()
      ensures WellNote(Cur())
    {
    }

    /** Code that is only reached by jumps, all with the same note. */
    ghost method LandAt(n: Note)
      requires Guard() ==> Typing() && Cur() == Dead && WellNote(n) && Steady(n) && |insns| > 0
      requires Guard() ==> forall d :: d in debts && d.target == |insns| ==> d.note == n
      modifies this`notes, this`debts
      ensures Guard() <==> old(Guard())
      ensures Guard() ==> Typing() && Steady(Cur()) && Cur() == n && debts == set d | d in old(debts) && d.target != |insns|
    {
      hide Gen.Typing, Gen.Guard, WellNote;
      if Guard() { Land(n); }
    }

    /** Jumps over the next instructions. */
    method EmitSkip(off: nat)
      requires Guard() ==> Typing() && Steady(Cur()) && DueFrom(debts, |insns| + 1)
      modifies this`insns, this`notes, this`error, this`debts
      ensures Guard() ==> old(Guard()) && Typing() && insns == old(insns) + [Ja(off)]
      ensures Guard() ==> Cur() == Dead && debts == old(debts) + {Debt(|insns| + off, old(Cur()))}
    {
      hide Gen.Typing, Gen.Guard, Gen.Cur;
      EmitJump(Ja(off));
    }

    // ----- Single instructions --------------------------------------------------------------------

    method EmitMovImm(d: nat, v: int)
      requires Guard() ==> Typing() && Steady(Cur()) && DueFrom(debts, |insns| + 1) && d < 10 && d != 6
      modifies this`insns, this`notes, this`error
      ensures Guard() ==> old(Guard()) && Typing() && Steady(Cur()) && insns == old(insns) + [MovImm(d, v)]
      ensures Guard() ==> Cur() == WithReg(old(Cur()), d, Const(v))
      ensures error == 0 ==> old(error) == 0 && insns == old(insns) + [MovImm(d, v)]
    {
      hide Gen.Typing, Gen.Guard, Gen.Cur;
      Emit(MovImm(d, v));
    }

    method EmitMovReg(d: nat, r: nat)
      requires Guard() ==> Typing() && Steady(Cur()) && DueFrom(debts, |insns| + 1) && d < 10 && d != 6 && r < 10 && !Cur().regs[r].Unknown?
      modifies this`insns, this`notes, this`error
      ensures Guard() ==> old(Guard()) && Typing() && Steady(Cur()) && insns == old(insns) + [MovReg(d, r)]
      ensures Guard() ==> Cur() == WithReg(old(Cur()), d, old(Cur()).regs[r])
      ensures error == 0 ==> old(error) == 0 && insns == old(insns) + [MovReg(d, r)]
    {
      hide Gen.Typing, Gen.Guard, Gen.Cur;
      Emit(MovReg(d, r));
    }

    method EmitRsh32(d: nat)
      requires Guard() ==> Typing() && Steady(Cur()) && DueFrom(debts, |insns| + 1) && d < 10 && d != 6 && IsNumeric(Cur().regs[d])
      modifies this`insns, this`notes, this`error
      ensures Guard() ==> old(Guard()) && Typing() && Steady(Cur()) && insns == old(insns) + [Rsh(d, 32)]
      ensures Guard() ==> Cur() == WithReg(old(Cur()), d, Number)
    {
      hide Gen.Typing, Gen.Guard, Gen.Cur;
      Emit(Rsh(d, 32));
    }

    method EmitLdxCtx(size: Size, d: nat, off: int)
      requires Guard() ==> Typing() && Steady(Cur()) && DueFrom(debts, |insns| + 1) && d < 10 && d != 6
      modifies this`insns, this`notes, this`error
      ensures Guard() ==> old(Guard()) && Typing() && Steady(Cur()) && insns == old(insns) + [Ldx(size, d, 6, off)]
      ensures Guard() ==> Cur() == WithReg(old(Cur()), d, Number)
    {
      hide Gen.Typing, Gen.Guard, Gen.Cur;
      Emit(Ldx(size, d, 6, off));
    }

    method EmitLdxStack(d: nat, off: int)
      requires Guard() ==> Typing() && Steady(Cur()) && DueFrom(debts, |insns| + 1) && d < 10 && d != 6 && off % 4 == 0
      modifies this`insns, this`notes, this`error
      ensures Guard() ==> old(Guard()) && Typing() && Steady(Cur()) && insns == old(insns) + [Ldx(W, d, 10, off)]
      ensures Guard() ==> Cur() == WordLoaded(old(Cur()), d, off)
      ensures error == 0 ==> old(error) == 0
    {
      hide Gen.Typing, Gen.Guard, Gen.Cur;
      Emit(Ldx(W, d, 10, off));
    }

    method EmitLdxBlob(size: Size, d: nat, r: nat, off: int)
      requires Guard() ==> Typing() && Steady(Cur()) && DueFrom(debts, |insns| + 1) && d < 10 && d != 6 && r < 10
      requires Guard() ==> Cur().regs[r].IsBlob? && Readable(size, Cur().regs[r].off + off)
      modifies this`insns, this`notes, this`error
      ensures Guard() ==> old(Guard()) && Typing() && Steady(Cur()) && insns == old(insns) + [Ldx(size, d, r, off)]
      ensures Guard() ==> Cur() == WithReg(old(Cur()), d, ReadType(size, old(Cur()).regs[r].off + off))
      ensures error == 0 ==> old(error) == 0 && insns == old(insns) + [Ldx(size, d, r, off)]
    {
      hide Gen.Typing, Gen.Guard, Gen.Cur;
      Emit(Ldx(size, d, r, off));
    }

    method EmitStxBlob(size: Size, d: nat, r: nat, off: int)
      requires Guard() ==> Typing() && Steady(Cur()) && DueFrom(debts, |insns| + 1) && d < 10 && r < 10 && Cur().regs[d].IsBlob? && IsElsewhere(Cur().regs[d].off + off) && !Cur().regs[r].Unknown?
      modifies this`insns, this`notes, this`error
      ensures Guard() ==> old(Guard()) && Typing() && Steady(Cur()) && insns == old(insns) + [Stx(size, d, r, off)]
      ensures Guard() ==> Cur() == old(Cur())
    {
      hide Gen.Typing, Gen.Guard, Gen.Cur;
      Emit(Stx(size, d, r, off));
    }

    method EmitStBlob(size: Size, d: nat, off: int, v: int)
      requires Guard() ==> Typing() && Steady(Cur()) && DueFrom(debts, |insns| + 1) && d < 10 && Cur().regs[d].IsBlob? && IsElsewhere(Cur().regs[d].off + off)
      modifies this`insns, this`notes, this`error
      ensures Guard() ==> old(Guard()) && Typing() && Steady(Cur()) && insns == old(insns) + [St(size, d, off, v)]
      ensures Guard() ==> Cur() == old(Cur())
    {
      hide Gen.Typing, Gen.Guard, Gen.Cur;
      Emit(St(size, d, off, v));
    }

    method EmitStxCtx(r: nat, off: int)
      requires Guard() ==> Typing() && Steady(Cur()) && DueFrom(debts, |insns| + 1) && r < 10 && IsNumeric(Cur().regs[r]) && off % 4 == 0
      modifies this`insns, this`notes, this`error
      ensures Guard() ==> old(Guard()) && Typing() && Steady(Cur()) && insns == old(insns) + [Stx(W, 6, r, off)]
      ensures Guard() ==> Cur() == CopiedTo(old(Cur()), off, old(Cur()).regs[r])
      ensures error == 0 ==> old(error) == 0
    {
      hide Gen.Typing, Gen.Guard, Gen.Cur;
      Emit(Stx(W, 6, r, off));
    }

    /** A forward jump on a comparison that tells nothing about descriptors or failures. */
    method EmitTest(c: Cond, d: nat, v: int, off: nat)
      requires c != Jslt && c != Jsle && (c == Jeq ==> v != ENOENT)
      requires Guard() ==> Typing() && Steady(Cur()) && DueFrom(debts, |insns| + 1) && d < 10 && IsNumeric(Cur().regs[d])
      modifies this`insns, this`notes, this`error, this`debts
      ensures Guard() ==> old(Guard()) && Typing() && Steady(Cur()) && insns == old(insns) + [Jmp(c, d, v, off)]
      ensures Guard() ==> Cur() == old(Cur()) && debts == old(debts) + {Debt(|insns| + off, Cur())}
    {
      hide Gen.Typing, Gen.Guard, Gen.Cur;
      EmitJump(Jmp(c, d, v, off));
    }

    /** Loads the address of blob + addr, which takes two instruction slots. */
    method LoadBlobAddr(d: nat, addr: int)
      requires Guard() ==> Typing() && Steady(Cur()) && DueFrom(debts, |insns| + 2) && d < 10 && d != 6
      modifies this`insns, this`notes, this`error
      ensures Guard() ==> old(Guard()) && Typing() && Steady(Cur()) && insns == old(insns) + [LoadBlob(d, addr), LoadBlobHi]
      ensures Guard() ==> Cur() == WithReg(old(Cur()), d, IsBlob(addr))
      ensures error == 0 ==> old(error) == 0 && insns == old(insns) + [LoadBlob(d, addr), LoadBlobHi]
      ensures error == EDOM ==> old(error) == EDOM
    {
      hide Gen.Typing, Gen.Guard, Gen.Cur;
      Emit(LoadBlob(d, addr));
      Emit(LoadBlobHi);
    }

    /** Appends size bytes of data, rounded up to a multiple of eight, and returns their offset. */
    method AddData(size: nat) returns (off: nat)
      modifies this`dataLen, this`error
      ensures Guard() ==> old(Guard()) && off == old(dataLen) && dataLen >= old(dataLen) + size
      ensures error == 0 ==> old(error) == 0 && dataLen >= old(dataLen) + size && IsRounded(size, dataLen - old(dataLen)) && dataLen <= INT32_MAX
      ensures error == 0 || error == old(error) || error == ERANGE || error == ENOMEM
      ensures old(error) == 0 ==> (error == ERANGE <==> TooLong(old(dataLen), size))
      ensures dataLen >= old(dataLen) >= off
    {
      if error != 0 { return 0; }
      var size8 := (size + 7) / 8 * 8;
      if size8 > INT32_MAX || dataLen + size8 > INT32_MAX {
        error := ERANGE;
        return 0;
      }
      var outOfMemory: bool := *;
      if outOfMemory {
        error := ENOMEM;
        return 0;
      }
      off := dataLen;
      dataLen := dataLen + size8;
    }

    // ----- Moving data ----------------------------------------------------------------------------

    /** Stores the address of some data in a field of the data. */
    method EmitRelStore(off: int, data: int)
      requires Guard() ==> Typing() && Steady(Cur()) && DueFrom(debts, |insns| + 5) && IsElsewhere(off)
      modifies this`insns, this`notes, this`error
      ensures Guard() ==> old(Guard()) && Typing() && |insns| == old(|insns|) + 5 && Same(old(Cur()), Cur(), {0, 1})
      ensures Guard() ==> insns == old(insns) + PointerCode(off, data)
    {
      hide Gen.Typing, Gen.Guard, Gen.Cur, FlowOn, FlowJump;
      LoadBlobAddr(0, data);
      LoadBlobAddr(1, off);
      EmitStxBlob(DW, 1, 0, 0);
    }

    method MoveBlob2Blob(off: int, size: Size, blobOff: int)
      requires Guard() ==> Typing() && Steady(Cur()) && DueFrom(debts, |insns| + 6)
      requires Guard() ==> IsElsewhere(off) && Readable(size, blobOff)
      modifies this`insns, this`notes, this`error
      ensures Guard() ==> old(Guard()) && Typing() && |insns| == old(|insns|) + 6 && Same(old(Cur()), Cur(), {0, 1, 2})
      ensures Guard() ==> IsNumeric(Cur().regs[0]) && insns == old(insns) + CopyCode(off, size, blobOff)
    {
      hide Gen.Typing, Gen.Guard, Gen.Cur, FlowOn, FlowJump;
      LoadBlobAddr(2, blobOff);
      EmitLdxBlob(size, 0, 2, 0);
      LoadBlobAddr(1, off);
      EmitStxBlob(size, 1, 0, 0);
    }

    method MoveBlob2Ctx(ctxOff: int, blobOff: int)
      requires Guard() ==> Typing() && Steady(Cur()) && DueFrom(debts, |insns| + 4) && IsSlot(W, blobOff) && ctxOff % 4 == 0
      modifies this`insns, this`notes, this`error
      ensures Guard() ==> old(Guard()) && Typing() && Steady(Cur()) && |insns| == old(|insns|) + 4
      ensures Guard() ==> Same(CopiedTo(old(Cur()), ctxOff, SlotValue(blobOff / 4)), Cur(), {0, 1})
      ensures error == 0 ==> old(error) == 0
    {
      hide Gen.Typing, Gen.Guard, Gen.Cur, FlowOn, FlowJump;
      LoadBlobAddr(1, blobOff);
      EmitLdxBlob(W, 0, 1, 0);
      EmitStxCtx(0, ctxOff);
    }

    method MoveStack2Blob(off: int, stackOff: int)
      requires Guard() ==> Typing() && Steady(Cur()) && DueFrom(debts, |insns| + 4) && IsElsewhere(off) && IsStackWord(W, stackOff)
      modifies this`insns, this`notes, this`error
      ensures Guard() ==> old(Guard()) && Typing() && |insns| == old(|insns|) + 4 && Same(old(Cur()), Cur(), {0, 1})
      ensures Guard() ==> insns == old(insns) + StackCode(off, stackOff)
    {
      hide Gen.Typing, Gen.Guard, Gen.Cur, FlowOn, FlowJump;
      EmitLdxStack(0, stackOff);
      LoadBlobAddr(1, off);
      EmitStxBlob(W, 1, 0, 0);
    }

    method MoveStack2Ctx(ctxOff: int, stackOff: int)
      requires Guard() ==> Typing() && Steady(Cur()) && DueFrom(debts, |insns| + 2) && stackOff % 4 == 0 && ctxOff % 4 == 0
      modifies this`insns, this`notes, this`error
      ensures Guard() ==> old(Guard()) && Typing() && Steady(Cur()) && |insns| == old(|insns|) + 2
      ensures Guard() ==> Same(CopiedTo(WordLoaded(old(Cur()), 0, stackOff), ctxOff, WordLoaded(old(Cur()), 0, stackOff).regs[0]), Cur(), {})
      ensures error == 0 ==> old(error) == 0
    {
      hide Gen.Typing, Gen.Guard, Gen.Cur, FlowOn, FlowJump;
      EmitLdxStack(0, stackOff);
      EmitStxCtx(0, ctxOff);
    }

    /** Copies a context field into the blob, unless it is checked and zero. */
    method MoveCtx2Blob(off: int, size: Size, ctxOff: int, checkNonZero: bool)
      requires Guard() ==> Typing() && Steady(Cur()) && debts == {} && IsElsewhere(off)
      modifies this`insns, this`notes, this`error, this`debts
      ensures Guard() ==> old(Guard()) && Typing() && debts == {} && Same(old(Cur()), Cur(), {0, 1})
      ensures Guard() ==> insns == old(insns) + CtxCode(off, size, ctxOff, checkNonZero)
    {
      hide Gen.Typing, Gen.Guard, Gen.Cur, FlowOn, FlowJump;
      EmitLdxCtx(size, 0, ctxOff);
      if !checkNonZero {
        LoadBlobAddr(1, off);
        EmitStxBlob(size, 1, 0, 0);
      } else {
        EmitTest(Jeq, 0, 0, 3);
        LoadBlobAddr(1, off);
        EmitStxBlob(size, 1, 0, 0);
        Meet({1});
      }
    }

    // ----- Calls ----------------------------------------------------------------------------------

    method EmitTracePrintk()
      requires Guard() ==> Typing() && Steady(Cur()) && DueFrom(debts, |insns| + 1)
      requires Guard() ==> Cur().regs[1].IsBlob? && IsNumeric(Cur().regs[2])
      modifies this`insns, this`notes, this`error
      ensures Guard() ==> old(Guard()) && Typing() && Steady(Cur()) && insns == old(insns) + [Call(TracePrintk)]
      ensures Guard() ==> Same(old(Cur()), Cur(), {0, 1, 2, 3, 4, 5})
      ensures error == 0 ==> old(error) == 0 && insns == old(insns) + [Call(TracePrintk)]
    {
      hide Gen.Typing, Gen.Guard, Gen.Cur;
      Emit(Call(TracePrintk));
    }

    method EmitRead(h: Helper)
      requires h == CopyFromUser || h == ProbeReadKernel
      requires Guard() ==> Typing() && Steady(Cur()) && DueFrom(debts, |insns| + 1)
      requires Guard() ==> BufferType(Cur().regs[1]) && IsNumeric(Cur().regs[2]) && IsNumeric(Cur().regs[3])
      modifies this`insns, this`notes, this`error
      ensures Guard() ==> old(Guard()) && Typing() && Steady(Cur()) && insns == old(insns) + [Call(h)]
      ensures Guard() ==> Same(old(Cur()), Cur(), {0, 1, 2, 3, 4, 5})
    {
      hide Gen.Typing, Gen.Guard, Gen.Cur;
      Emit(Call(h));
    }

    method EmitSysClose()
      requires Guard() ==> Typing() && Steady(Cur()) && DueFrom(debts, |insns| + 1) && IsOpen(Cur().regs[1])
      modifies this`insns, this`notes, this`error
      ensures Guard() ==> old(Guard()) && Typing() && Steady(Cur()) && insns == old(insns) + [Call(SysClose)]
      ensures Guard() ==> Same(Freed(old(Cur())), Cur(), {0, 1, 2, 3, 4, 5}) && Cur().regs[0] == Number
      ensures error == 0 ==> old(error) == 0 && insns == old(insns) + [Call(SysClose)]
    {
      hide Gen.Typing, Gen.Guard, Gen.Cur;
      Emit(Call(SysClose));
    }

    /** A call whose result is kept. */
    method EmitResultCall(h: Helper)
      requires h.FindByNameKind? || h == KallsymsLookup || h == SysBpf
      requires Guard() ==> Typing() && Steady(Cur()) && DueFrom(debts, |insns| + 1) && FlowCall(Cur(), h).To?
      modifies this`insns, this`notes, this`error
      ensures Guard() ==> old(Guard()) && Typing() && Steady(Cur()) && insns == old(insns) + [Call(h)]
      ensures Guard() ==> HasResult(old(Cur()), Cur(), Requested(old(Cur()), h))
      ensures Guard() ==> Cur().regs[0] == LastResult
      ensures Guard() && old(Cur()).regs[7].IsBlob? ==> Cur().regs[7] == old(Cur()).regs[7]
    {
      hide Gen.Typing, Gen.Guard, Gen.Cur;
      Emit(Call(h));
    }

    /** Skips the next instructions when the place loaded into R1 is empty. */
    method EmitSkipIfEmpty(off: nat)
      requires Guard() ==> Typing() && Steady(Cur()) && DueFrom(debts, |insns| + 1) && IsNumeric(Cur().regs[1])
      modifies this`insns, this`notes, this`error, this`debts
      ensures Guard() ==> old(Guard()) && Typing() && Steady(Cur()) && insns == old(insns) + [Jmp(Jsle, 1, 0, off)]
      ensures Guard() ==> Cur() == WithReg(old(Cur()), 1, Opened(old(Cur()).regs[1])) && debts == old(debts) + {Debt(|insns| + off, Freed(old(Cur())))}
      ensures error == 0 ==> old(error) == 0 && insns == old(insns) + [Jmp(Jsle, 1, 0, off)]
    {
      hide Gen.Typing, Gen.Guard, Gen.Cur;
      EmitJump(Jmp(Jsle, 1, 0, off));
    }

    /** Prints up to two registers when logging is on; the length of the text does not matter. */
    method DebugRegs(reg1: int, reg2: int)
      requires (reg1 < 0 || reg1 == 0 || 6 <= reg1 < 10) && (reg2 < 0 || reg2 == 0 || 6 <= reg2 < 10)
      requires Guard() ==> Typing() && Steady(Cur()) && DueFrom(debts, |insns| + DebugLen(logLevel, reg1, reg2))
      requires Guard() && reg1 >= 0 ==> !Cur().regs[reg1].Unknown?
      requires Guard() && reg2 >= 0 ==> !Cur().regs[reg2].Unknown?
      modifies this`insns, this`notes, this`error, this`dataLen
      ensures dataLen >= old(dataLen)
      ensures Guard() ==> old(Guard()) && Typing() && Steady(Cur()) && Same(old(Cur()), Cur(), {0, 1, 2, 3, 4, 5})
      ensures Guard() ==> |insns| == old(|insns|) + DebugLen(logLevel, reg1, reg2) && Pieces(old(insns), insns)
      ensures error == 0 ==> old(error) == 0 && old(insns) <= insns && |insns| == old(|insns|) + DebugLen(logLevel, reg1, reg2)
    {
      hide Gen.Typing, Gen.Guard, Gen.Cur, FlowOn, FlowJump;
      hide Pieces;
      if logLevel == 0 {
        PiecesRefl(insns);
        return;
      }
      ghost var p0, n0 := insns, Cur();
      DebugArgs(reg1, reg2);
      ghost var p2, n3 := insns, Cur();
      EmitTracePrintk();
      if Guard() {
        PiecesMore(p0, p2, Call(TracePrintk), insns);
        SameTrans(n0, n3, Cur(), {1, 2, 3, 4}, {0, 1, 2, 3, 4, 5}, {0, 1, 2, 3, 4, 5});
      }
    }

    method DebugArgs(reg1: int, reg2: int)
      requires (reg1 < 0 || reg1 == 0 || 6 <= reg1 < 10) && (reg2 < 0 || reg2 == 0 || 6 <= reg2 < 10) && logLevel != 0
      requires Guard() ==> Typing() && Steady(Cur()) && DueFrom(debts, |insns| + DebugLen(logLevel, reg1, reg2))
      requires Guard() && reg1 >= 0 ==> !Cur().regs[reg1].Unknown?
      requires Guard() && reg2 >= 0 ==> !Cur().regs[reg2].Unknown?
      modifies this`insns, this`notes, this`error, this`dataLen
      ensures dataLen >= old(dataLen)
      ensures Guard() ==> old(Guard()) && Typing() && Steady(Cur()) && Same(old(Cur()), Cur(), {1, 2, 3, 4})
      ensures Guard() ==> Cur().regs[1].IsBlob? && IsNumeric(Cur().regs[2])
      ensures Guard() ==> |insns| == old(|insns|) + DebugLen(logLevel, reg1, reg2) - 1 && Pieces(old(insns), insns)
      ensures error == 0 ==> old(error) == 0 && old(insns) <= insns && |insns| == old(|insns|) + DebugLen(logLevel, reg1, reg2) - 1
    {
      hide Gen.Typing, Gen.Guard, Gen.Cur, FlowOn, FlowJump, Pieces;
      ghost var p0 := insns;
      DebugText();
      DebugArg(3, reg1, p0);
      DebugArg(4, reg2, p0);
    }

    method DebugText()
      requires Guard() ==> Typing() && Steady(Cur()) && DueFrom(debts, |insns| + 3)
      modifies this`insns, this`notes, this`error, this`dataLen
      ensures dataLen >= old(dataLen)
      ensures Guard() ==> old(Guard()) && Typing() && Steady(Cur()) && Same(old(Cur()), Cur(), {1, 2})
      ensures Guard() ==> Cur().regs[1].IsBlob? && IsNumeric(Cur().regs[2])
      ensures Guard() ==> |insns| == old(|insns|) + 3 && Pieces(old(insns), insns)
      ensures error == 0 ==> old(error) == 0 && old(insns) <= insns && |insns| == old(|insns|) + 3
    {
      hide Gen.Typing, Gen.Guard, Gen.Cur, FlowOn, FlowJump, Pieces;
      ghost var p0 := insns;
      var len: nat :| 1 <= len <= 1024;
      var addr := AddData(len);
      LoadBlobAddr(1, addr);
      if Guard() { PiecesLoad(p0, 1, addr, insns); }
      ghost var p1 := insns;
      EmitMovImm(2, len);
      if Guard() { PiecesMore(p0, p1, MovImm(2, len), insns); }
    }

    method DebugArg(d: nat, reg: int, ghost p0: seq<Insn>)
      requires (d == 3 || d == 4) && (reg < 0 || reg == 0 || 6 <= reg < 10)
      requires Guard() ==> Typing() && Steady(Cur()) && DueFrom(debts, |insns| + 1) && Pieces(p0, insns)
      requires Guard() && reg >= 0 ==> !Cur().regs[reg].Unknown?
      modifies this`insns, this`notes, this`error
      ensures Guard() ==> old(Guard()) && Typing() && Steady(Cur()) && Same(old(Cur()), Cur(), {d})
      ensures Guard() ==> |insns| == old(|insns|) + (if reg >= 0 then 1 else 0) && Pieces(p0, insns)
      ensures error == 0 ==> old(error) == 0 && old(insns) <= insns && |insns| == old(|insns|) + (if reg >= 0 then 1 else 0)
    {
      hide Gen.Typing, Gen.Guard, Gen.Cur, FlowOn, FlowJump, Pieces;
      if reg >= 0 {
        ghost var p1 := insns;
        EmitMovReg(d, reg);
        if Guard() { PiecesMore(p0, p1, MovReg(d, reg), insns); }
      }
    }

    /** Closes the descriptor in R1, unless it is zero. */
    method EmitClose()
      requires Guard() ==> Typing() && Steady(Cur()) && DueFrom(debts, |insns| + CloseLen(logLevel) + 1) && IsNumeric(Cur().regs[1])
      modifies this`insns, this`notes, this`error, this`dataLen, this`debts
      ensures dataLen >= old(dataLen)
      ensures Guard() ==> old(Guard()) && Typing() && Steady(Cur()) && debts == old(debts)
      ensures Guard() ==> Same(Freed(old(Cur())), Cur(), {0, 1, 2, 3, 4, 5, 9})
      ensures Guard() ==> |insns| == old(|insns|) + CloseLen(logLevel) && Pieces(old(insns), insns)
      ensures error == 0 ==> old(error) == 0 && old(insns) <= insns && |insns| == old(|insns|) + CloseLen(logLevel)
      ensures Guard() ==> old(insns) <= insns && ClosesR1(insns, |old(insns)|)
    {
      hide Gen.Typing, Gen.Guard, Gen.Cur, FlowOn, FlowJump;
      hide Pieces, ClosesR1, Opened, Released, IsOpen;
      ghost var p0 := insns;
      var skip := if logLevel != 0 then 8 else 2;
      if Guard() { OpenedIsOpen(Cur().books, Cur().regs[1]); }
      EmitSkipIfEmpty(skip);
      ghost var p1 := insns;
      CloseAndPrint();
      if Guard() {
        PiecesJump(p0, Jmp(Jsle, 1, 0, skip), p1, insns);
        CloseStarts(p0, Jmp(Jsle, 1, 0, skip), insns);
      }
      Meet({0, 1, 2, 3, 4, 5, 9});
    }

    method CloseAndPrint()
      requires Guard() ==> Typing() && Steady(Cur()) && DueFrom(debts, |insns| + CloseLen(logLevel) - 1) && IsOpen(Cur().regs[1])
      modifies this`insns, this`notes, this`error, this`dataLen
      ensures dataLen >= old(dataLen)
      ensures Guard() ==> old(Guard()) && Typing() && Steady(Cur()) && Same(Freed(old(Cur())), Cur(), {0, 1, 2, 3, 4, 5, 9})
      ensures Guard() ==> |insns| == old(|insns|) + CloseLen(logLevel) - 1 && Pieces(old(insns), insns)
      ensures error == 0 ==> old(error) == 0 && old(insns) <= insns && |insns| == old(|insns|) + CloseLen(logLevel) - 1
      ensures Guard() ==> old(insns) + [MovReg(9, 1), Call(SysClose)] <= insns
    {
      hide Gen.Typing, Gen.Guard, Gen.Cur, FlowOn, FlowJump, Pieces;
      ghost var p1 := insns;
      EmitMovReg(9, 1);
      if Guard() { PiecesMore(p1, p1, MovReg(9, 1), insns); }
      ghost var p2 := insns;
      EmitSysClose();
      if Guard() { PiecesMore(p1, p2, Call(SysClose), insns); }
      ghost var p3 := insns;
      DebugRegs(9, 0);
      if Guard() {
        PiecesTrans(p1, p3, insns);
        PiecesPrefix(p3, insns);
        assert p3 == p1 + [MovReg(9, 1), Call(SysClose)];
      }
    }

    method EmitCloseStack(off: int)
      requires Guard() ==> Typing() && Steady(Cur()) && debts == {} && IsStackWord(W, off)
      modifies this`insns, this`notes, this`error, this`dataLen, this`debts
      ensures dataLen >= old(dataLen)
      ensures Guard() ==> old(Guard()) && Typing() && Steady(Cur()) && debts == {}
      ensures Guard() ==> Same(old(Cur()).(books := Released(old(Cur()).books, StackValue(StackWord(off)))), Cur(), {0, 1, 2, 3, 4, 5, 9})
      ensures error == 0 ==> old(error) == 0
    {
      hide Gen.Typing, Gen.Guard, Gen.Cur, FlowOn, FlowJump;
      EmitLdxStack(1, off);
      EmitClose();
    }

    method EmitCloseBlob(off: int)
      requires Guard() ==> Typing() && Steady(Cur()) && DueFrom(debts, |insns| + CloseLen(logLevel) + 4) && Readable(W, off)
      modifies this`insns, this`notes, this`error, this`dataLen, this`debts
      ensures dataLen >= old(dataLen)
      ensures Guard() ==> old(Guard()) && Typing() && Steady(Cur()) && debts == old(debts)
      ensures Guard() ==> Same(FreedSlot(old(Cur()), off), Cur(), {0, 1, 2, 3, 4, 5, 9})
      ensures Guard() ==> |insns| == old(|insns|) + 3 + CloseLen(logLevel) && Pieces(old(insns), insns)
      ensures error == 0 ==> old(error) == 0 && old(insns) <= insns && |insns| == old(|insns|) + 3 + CloseLen(logLevel)
      ensures Guard() ==> old(insns) <= insns && ClosesPlace(insns, |old(insns)|, off)
    {
      hide Gen.Typing, Gen.Guard, Gen.Cur, FlowOn, FlowJump;
      hide Pieces;
      ghost var p0 := insns;
      LoadBlobAddr(0, off);
      if Guard() { PiecesLoad(p0, 0, off, insns); }
      ghost var p1 := insns;
      EmitLdxBlob(W, 1, 0, 0);
      if Guard() { PiecesMore(p0, p1, Ldx(W, 1, 0, 0), insns); }
      ghost var p2 := insns;
      EmitClose();
      if Guard() {
        PiecesTrans(p0, p2, insns);
        assert p2 == p0 + [LoadBlob(0, off), LoadBlobHi, Ldx(W, 1, 0, 0)];
        PlaceStarts(p0, p2, insns, off);
      }
    }

    /** Leaves for the cleanup block when the last call failed. */
    method EmitCheckErr()
      requires Guard() ==> Typing() && Steady(Cur()) && DueFrom(debts, |insns| + 1) && stage == Loading && Fits(Cur())
      requires Guard() ==> Cur().regs[7] == LastResult && Cur().books.owes == Due
      modifies this`insns, this`notes, this`error, this`debts
      ensures Guard() ==> old(Guard()) && Typing() && Steady(Cur()) && debts == old(debts) && Cur() == Checked(old(Cur()))
      ensures Guard() ==> |insns| == old(|insns|) + 1 && old(insns) <= insns && ChecksError(insns, cleanupLabel, old(|insns|))
      ensures if IsSimm16(cleanupLabel - old(|insns|) - 1) then AddingError(old(error), error, old(|insns|)) else error != 0
    {
      hide Typed, CleanupNoted, WellNote;
      var off := cleanupLabel - |insns| - 1;
      if IsSimm16(off) {
        if Guard() { CheckLands(insns, notes, cleanupLabel, cleanupEnd, initProgs, initMaps, Cur(), off); }
        EmitJump(Jmp(Jslt, 7, 0, off));
      } else {
        error := ERANGE;
        EmitJump(Ja(-1));
      }
    }

    /** Live descriptors are only where the cleanup block looks. */
    ghost predicate Fits(n: Note)
      requires n.Note?
      reads this`initProgs, this`initMaps
    {
      FitsIn(n.books, initProgs, initMaps)
    }

    /** Calls bpf() and keeps the result in R7. */
    method EmitSysBpf(cmd: int, attr: int, attrSize: int)
      requires Guard() ==> Typing() && Steady(Cur()) && DueFrom(debts, |insns| + 6) && IsElsewhere(attr) && Settled(Cur().books)
      modifies this`insns, this`notes, this`error, this`requests
      ensures Guard() ==> old(Guard()) && Typing() && Steady(Cur()) && |insns| == old(|insns|) + 6
      ensures Guard() ==> HasResult(old(Cur()), Cur(), Bpf(cmd)) && Cur().regs[7] == LastResult
      ensures Guard() ==> insns == old(insns) + AskCode(cmd, attr, attrSize)
      ensures requests == old(requests) + [Bpf(cmd)]
    {
      hide Gen.Typing, Gen.Guard, Gen.Cur, FlowOn, FlowJump, AfterRequest, FlowCall;
      EmitBpfArgs(cmd, attr, attrSize);
      if Guard() { BpfFlow(Cur(), cmd); }
      EmitResultInR7(SysBpf);
      requests := requests + [Bpf(cmd)];
    }

    method EmitBpfArgs(cmd: int, attr: int, attrSize: int)
      requires Guard() ==> Typing() && Steady(Cur()) && DueFrom(debts, |insns| + 4)
      modifies this`insns, this`notes, this`error
      ensures Guard() ==> old(Guard()) && Typing() && Steady(Cur()) && |insns| == old(|insns|) + 4 && Same(old(Cur()), Cur(), {1, 2, 3})
      ensures Guard() ==> Cur().regs[1] == Const(cmd) && Cur().regs[2] == IsBlob(attr) && Cur().regs[3] == Const(attrSize)
      ensures Guard() ==> insns == old(insns) + [MovImm(1, cmd), LoadBlob(2, attr), LoadBlobHi, MovImm(3, attrSize)]
    {
      hide Gen.Typing, Gen.Guard, Gen.Cur, FlowOn, FlowJump;
      EmitMovImm(1, cmd);
      LoadBlobAddr(2, attr);
      EmitMovImm(3, attrSize);
    }

    /** A call whose result is kept in R7. */
    method EmitResultInR7(h: Helper)
      requires h.FindByNameKind? || h == SysBpf
      requires Guard() ==> Typing() && Steady(Cur()) && DueFrom(debts, |insns| + 2) && FlowCall(Cur(), h).To?
      modifies this`insns, this`notes, this`error
      ensures Guard() ==> old(Guard()) && Typing() && Steady(Cur()) && |insns| == old(|insns|) + 2
      ensures Guard() ==> HasResult(old(Cur()), Cur(), Requested(old(Cur()), h)) && Cur().regs[7] == LastResult
      ensures Guard() ==> insns == old(insns) + [Call(h), MovReg(7, 0)]
    {
      hide Gen.Typing, Gen.Guard, Gen.Cur, FlowOn, FlowJump, AfterRequest, FlowCall, Requested;
      EmitResultCall(h);
      EmitMovReg(7, 0);
    }

    lemma GuardMeans()
      requires Guard()
      ensures error == 0 && initMaps <= MAX_USED_MAPS && nrMaps <= initMaps && nrProgs <= initProgs <= MAX_SKIPPABLE_PROGS
      ensures Skippable(initProgs, initMaps, logLevel) && !reused
    {
      hide Skippable;
      SkippableProgs(initProgs, initMaps, logLevel);
    }

    // ----- Initialisation -------------------------------------------------------------------------

    ghost predicate Fresh()
      reads this
    {
      && insns == [] && dataLen == 0 && error == 0 && nrMaps == 0 && nrProgs == 0 && fdArray == 0 && nrFdArray == 0
      && notes == [START] && debts == {} && stage == Starting && !btfLoaded && !innerOpen && !reused
      && initProgs == initMaps == 0 && requests == [] && progCalls == mapCalls == [] && relos == [] && ksyms == [] && coreReloCnt == 0 && attachKind == 0
    }

    constructor ()
      ensures Fresh()
    {
      insns, dataLen, error, logLevel, cleanupLabel, nrMaps, nrProgs, fdArray, nrFdArray := [], 0, 0, 0, 0, 0, 0, 0, 0;
      notes, debts, stage, cleanupEnd, initProgs, initMaps := [START], {}, Starting, 0, 0, 0;
      btfLoaded, innerOpen, reused, requests, progCalls, mapCalls := false, false, false, [], [], [];
      relos, ksyms, coreReloCnt, attachKind, attachLen := [], [], 0, 0, 0;
    }

    /** Saves the context pointer and clears the stack. */
    method EmitProlog()
      requires insns == [] && notes == [START] && debts == {} && stage == Starting
      modifies this`insns, this`notes, this`error
      ensures Guard() ==> old(Guard()) && Typing() && Cur() == READY
      ensures Guard() ==> insns == PROLOG
      ensures error == 0 ==> old(error) == 0 && insns == PROLOG
    {
      hide Typed, Gen.Guard, FlowOn;
      StartTyped();
      PrologFlow();
      assert Typing() && Cur() == START;
      hide Gen.Typing, Gen.Cur;
      Emit(MovReg(6, 1));
      Emit(MovReg(1, 10));
      Emit(AddImm(1, -STACK_SZ));
      Emit(MovImm(2, STACK_SZ));
      Emit(MovImm(3, 0));
      Emit(Call(ProbeReadKernel));
    }

    /** Jumps over the cleanup block that follows. */
    method EmitSkipCleanup(skip: nat)
      requires Guard() ==> Typing() && Cur() == READY && debts == {} && stage == Starting && skip <= INT16_MAX
      modifies this`insns, this`notes, this`error, this`debts
      ensures Guard() ==> old(Guard()) && Typing() && Cur() == Dead && insns == old(insns) + [Ja(skip)]
      ensures Guard() ==> debts == {Debt(|insns| + skip, READY)}
      ensures error == 0 ==> old(error) == 0 && insns == old(insns) + [Ja(Signed16(skip))]
    {
      hide Gen.Typing, Gen.Guard, Gen.Cur;
      EmitJump(Ja(Signed16(skip)));
    }

    /** The first instruction for a stack word; the very first one fixes the note at the label. */
    method EmitLoadWord(off: int, ghost words: nat, ghost n: Note)
      requires off % 4 == 0 && words == 2 + initProgs && (stage == Starting || stage == Cleaning) && Steady(n)
      requires Guard() ==> Typing() && Cur() == n && DueFrom(debts, |insns| + 1)
      requires Guard() && stage == Starting ==> |insns| == cleanupLabel && n == CleanNote(0, words, 0, initMaps)
      modifies this`insns, this`notes, this`error, this`stage
      ensures Guard() ==> old(Guard()) && Typing() && Steady(Cur()) && insns == old(insns) + [Ldx(W, 1, 10, off)]
      ensures Guard() ==> Cur() == WordLoaded(n, 1, off)
      ensures error == 0 ==> old(error) == 0 && insns == old(insns) + [Ldx(W, 1, 10, off)]
      ensures stage == Cleaning
    {
      hide Typed, WellNote, Gen.Guard, FlowOn, CleanNote;
      LoadWordFlow(n, off);
      Emit(Ldx(W, 1, 10, off));
      stage := Cleaning;
    }

    /** Closes stack word i in the cleanup block. */
    method EmitCloseWord(i: nat, ghost words: nat, ghost n: Note)
      requires i < words == 2 + initProgs && (stage == Starting <==> i == 0) && (stage == Starting || stage == Cleaning)
      requires n == CleanNote(i, words, 0, initMaps)
      requires Guard() ==> Typing() && Cur() == n && DueFrom(debts, |insns| + 4)
      requires Guard() ==> i == 0 ==> |insns| == cleanupLabel
      modifies this`insns, this`notes, this`error, this`debts, this`stage
      ensures Guard() ==> old(Guard()) && Typing() && Cur() == CleanNote(i + 1, words, 0, initMaps) && debts == old(debts)
      ensures Guard() ==> |insns| == old(|insns|) + 3 && Pieces(old(insns), insns)
      ensures error == 0 ==> old(error) == 0 && old(insns) <= insns && |insns| == old(|insns|) + 3
      ensures stage == Cleaning
    {
      hide Gen.Typing, Gen.Guard, Gen.Cur, FlowOn, FlowJump, Pieces, Words;
      hide Signed16, CleanNote, WordLoaded;
      var off := Signed16(-STACK_SZ + 4 * i);
      WordOffset(i);
      CleanNoteSteady(i, words, initMaps);
      ghost var p0 := insns;
      EmitLoadWord(off, words, n);
      if Guard() {
        GuardMeans();
        PiecesMore(p0, p0, Ldx(W, 1, 10, off), insns);
        WordLoadedNumeric(n, off);
      }
      ghost var p1 := insns;
      ghost var m := EmitSkipOrClose();
      if Guard() {
        PiecesTrans(p0, p1, insns);
        CleanWord(n, i, words, initMaps, off, m);
      }
    }

    /** Closes the descriptor loaded into R1 unless it is zero, without printing. */
    method EmitSkipOrClose() returns (ghost m: Note)
      requires Guard() ==> Typing() && Steady(Cur()) && DueFrom(debts, |insns| + 3) && IsNumeric(Cur().regs[1])
      modifies this`insns, this`notes, this`error, this`debts
      ensures Guard() ==> old(Guard()) && Typing() && Same(Freed(old(Cur())), m, {0, 1, 2, 3, 4, 5})
      ensures Guard() ==> Cur() == Blurred(m, {0, 1, 2, 3, 4, 5}) && debts == old(debts)
      ensures Guard() ==> |insns| == old(|insns|) + 2 && Pieces(old(insns), insns)
      ensures error == 0 ==> old(error) == 0 && old(insns) <= insns && |insns| == old(|insns|) + 2
    {
      hide Gen.Typing, Gen.Guard, Gen.Cur, FlowOn, FlowJump, Pieces;
      ghost var p1 := insns;
      EmitSkipIfEmpty(1);
      ghost var p2 := insns;
      EmitSysClose();
      if Guard() {
        PiecesMore(p2, p2, Call(SysClose), insns);
        PiecesJump(p1, Jmp(Jsle, 1, 0, 1), p2, insns);
      }
      m := Cur();
      Meet({0, 1, 2, 3, 4, 5});
    }

    /** Closes all stack words in the cleanup block. */
    method EmitCloseWords(words: nat)
      requires words == 2 + initProgs && stage == Starting
      requires Guard() ==> Typing() && Cur() == CleanNote(0, words, 0, initMaps) && DueFrom(debts, |insns| + 3 * words + 1)
      requires Guard() ==> |insns| == cleanupLabel
      modifies this`insns, this`notes, this`error, this`debts, this`stage
      ensures Guard() ==> old(Guard()) && Typing() && Cur() == CleanNote(words, words, 0, initMaps) && debts == old(debts)
      ensures Guard() ==> |insns| == old(|insns|) + 3 * words && Pieces(old(insns), insns)
      ensures stage == Cleaning
      ensures error == 0 ==> old(error) == 0 && old(insns) <= insns && |insns| == old(|insns|) + 3 * words
    {
      hide Gen.Typing, Gen.Guard, Gen.Cur, FlowOn, FlowJump, Pieces, CleanNote;
      ghost var p0 := insns;
      PiecesRefl(p0);
      var i := 0;
      while i < words
        invariant 0 <= i <= words && stage == if i == 0 then Starting else Cleaning
        invariant Guard() ==> old(Guard()) && Typing() && Cur() == CleanNote(i, words, 0, initMaps) && debts == old(debts)
        invariant Guard() ==> |insns| == |p0| + 3 * i && Pieces(p0, insns)
        invariant error == 0 ==> old(error) == 0 && p0 <= insns && |insns| == |p0| + 3 * i
      {
        ghost var p1 := insns;
        EmitCloseWord(i, words, CleanNote(i, words, 0, initMaps));
        if Guard() { PiecesTrans(p0, p1, insns); }
        i := i + 1;
      }
    }

    /** Closes map slot i in the cleanup block. */
    method EmitCloseSlot(i: nat, ghost words: nat)
      requires i < initMaps && stage == Cleaning
      requires Guard() ==> Typing() && Cur() == CleanNote(words, words, i, initMaps) && fdArray == 0
      requires Guard() ==> DueFrom(debts, |insns| + CloseLen(logLevel) + 4)
      modifies this`insns, this`notes, this`error, this`debts, this`dataLen
      ensures dataLen >= old(dataLen)
      ensures Guard() ==> old(Guard()) && Typing() && Cur() == CleanNote(words, words, i + 1, initMaps) && debts == old(debts)
      ensures Guard() ==> |insns| == old(|insns|) + 3 + CloseLen(logLevel) && Pieces(old(insns), insns)
      ensures error == 0 ==> old(error) == 0 && old(insns) <= insns && |insns| == old(|insns|) + 3 + CloseLen(logLevel)
    {
      hide Gen.Typing, Gen.Cur, FlowOn, FlowJump, Pieces, Words;
      ghost var n := CleanNote(words, words, i, initMaps);
      EmitCloseBlob(fdArray + 4 * i);
      if Guard() {
        CleanSlot(n, words, i, initMaps, Cur());
        Land(CleanNote(words, words, i + 1, initMaps));
      }
    }

    method EmitCloseSlots(maps: nat, ghost words: nat)
      requires maps == initMaps && stage == Cleaning
      requires Guard() ==> Typing() && Cur() == CleanNote(words, words, 0, initMaps) && fdArray == 0
      requires Guard() ==> DueFrom(debts, |insns| + maps * (3 + CloseLen(logLevel)) + 1)
      modifies this`insns, this`notes, this`error, this`debts, this`dataLen
      ensures dataLen >= old(dataLen)
      ensures Guard() ==> old(Guard()) && Typing() && Cur() == CleanNote(words, words, maps, initMaps) && debts == old(debts)
      ensures Guard() ==> |insns| == old(|insns|) + maps * (3 + CloseLen(logLevel)) && Pieces(old(insns), insns)
      ensures error == 0 ==> old(error) == 0 && old(insns) <= insns && |insns| == old(|insns|) + maps * (3 + CloseLen(logLevel))
    {
      hide Gen.Typing, Gen.Guard, Gen.Cur, FlowOn, FlowJump, Pieces, CleanNote, CloseLen;
      ghost var p0, each := insns, 3 + CloseLen(logLevel);
      PiecesRefl(p0);
      var i := 0;
      while i < maps
        invariant 0 <= i <= maps && dataLen >= old(dataLen)
        invariant Guard() ==> old(Guard()) && Typing() && Cur() == CleanNote(words, words, i, initMaps) && debts == old(debts)
        invariant Guard() ==> |insns| == |p0| + i * each && Pieces(p0, insns)
        invariant error == 0 ==> old(error) == 0 && p0 <= insns && |insns| == |p0| + i * each
      {
        ghost var p1 := insns;
        OneMore(i, maps, each);
        EmitCloseSlot(i, words);
        if Guard() { PiecesTrans(p0, p1, insns); }
        i := i + 1;
      }
    }

    /** Generates the cleanup block: close everything, return the error. */
    method EmitCleanup(words: nat, maps: nat)
      requires words == 2 + initProgs && maps == initMaps && stage == Starting
      requires Guard() ==> Typing() && Cur() == Dead && |insns| == cleanupLabel > 0 && fdArray == 0
      requires Guard() ==> insns == PROLOG + [Ja(CleanupLen(words, maps, logLevel))]
      requires Guard() ==> debts == {Debt(|insns| + CleanupLen(words, maps, logLevel), READY)}
      modifies this`insns, this`notes, this`error, this`debts, this`dataLen, this`stage, this`cleanupEnd
      ensures dataLen >= old(dataLen)
      ensures Guard() ==> old(Guard()) && Typing() && Cur() == READY && debts == {} && stage == Loading
      ensures error == 0 ==> old(error) == 0 && old(insns) <= insns && |insns| == old(|insns|) + CleanupLen(words, maps, logLevel)
    {
      hide Gen.Typing, Gen.Guard, Gen.Cur, FlowOn, FlowJump, Pieces, CleanNote, Words;
      ghost var p0 := insns;
      if Guard() {
        GuardMeans();
        CleanNoteWell(words, maps);
        Land(CleanNote(0, words, 0, maps));
      }
      EmitCloseWords(words);
      ghost var p1 := insns;
      EmitCloseSlots(maps, words);
      if Guard() { PiecesTrans(p0, p1, insns); }
      EmitReturn(words, maps, p0);
    }

    /** Ends the cleanup block. */
    method EmitReturn(ghost words: nat, ghost maps: nat, ghost p0: seq<Insn>)
      requires words == 2 + initProgs && maps == initMaps && stage == Cleaning
      requires Guard() ==> Typing() && Cur() == CleanNote(words, words, maps, maps) && Pieces(p0, insns)
      requires Guard() ==> |p0| == cleanupLabel && p0 == PROLOG + [Ja(|insns| + 2 - |p0|)]
      requires Guard() ==> debts == {Debt(|insns| + 2, READY)}
      modifies this`insns, this`notes, this`error, this`debts, this`stage, this`cleanupEnd
      ensures Guard() ==> old(Guard()) && Typing() && Cur() == READY && debts == {} && stage == Loading
      ensures error == 0 ==> old(error) == 0 && old(insns) <= insns && |insns| == old(|insns|) + 2
    {
      hide Gen.Guard, FlowOn, FlowJump, Pieces, CleanNote, Words, Typed, Layout, WellNote;
      hide CleanupNoted, LabelNoted;
      ReturnFlow(words, maps);
      Emit(MovReg(0, 7));
      Emit(Exit);
      EndCleanup(words, maps, p0, old(insns));
    }

    /** The cleanup block is complete; the commands start where the first jump lands. */
    ghost method EndCleanup(words: nat, maps: nat, p0: seq<Insn>, p1: seq<Insn>)
      requires words == 2 + initProgs && maps == initMaps && stage == Cleaning
      requires Guard() ==> Typing() && Cur() == Dead && Pieces(p0, p1) && insns == p1 + [MovReg(0, 7)] + [Exit]
      requires Guard() ==> |p0| == cleanupLabel && p0 == PROLOG + [Ja(|p1| + 2 - |p0|)] && debts == {Debt(|insns|, READY)}
      requires Guard() ==> notes[|insns| - 1] == WithReg(CleanNote(words, words, maps, maps), 0, LastResult)
      modifies this`notes, this`debts, this`stage, this`cleanupEnd
      ensures Guard() ==> old(Guard()) && Typing() && Cur() == READY && debts == {} && stage == Loading
    {
      hide Gen.Guard, Pieces, CleanNote, Words, Typed, Layout, WellNote, LabelNoted, CleanupNoted, OneExit;
      if Guard() {
        ReturnLayout(p0, p1, insns);
        ReturnNoted(insns, notes, cleanupLabel, words, initProgs, maps);
        ReadyWell();
        cleanupEnd := |insns|;
        stage := Loading;
        Land(READY);
      }
    }

    /** Starts a loader for a given number of programs and maps.  The first jump skips exactly the cleanup
        block if and only if the length of that block fits into an offset (SkipsExactly). */
    method Init(log: int, progs: nat, maps: nat)
      requires Fresh()
      modifies this`insns, this`notes, this`error, this`debts, this`dataLen, this`stage, this`cleanupEnd, this`cleanupLabel
      modifies this`initProgs, this`initMaps, this`fdArray, this`logLevel
      ensures initProgs == progs && initMaps == maps && logLevel == log && !btfLoaded && !innerOpen && !reused && Ready()
      ensures error == 0 ==> Begun(insns, cleanupLabel, CleanupLen(2 + progs, maps, log)) && |insns| == cleanupLabel + CleanupLen(2 + progs, maps, log)
    {
      hide Gen.Typing, Gen.Guard, Gen.Cur, FlowOn, FlowJump, Pieces, CleanNote, Words, CleanupLen, PlacesOk, Begun;
      hide Gen.Ready;
      Announce(log, progs, maps);
      EmitPreamble(progs, maps);
      GuardNeedsNoError();
      ReadyToGo();
    }

    /** Reserves the fd array and notes what was announced. */
    method Announce(log: int, progs: nat, maps: nat)
      requires dataLen == 0
      modifies this`error, this`dataLen, this`initProgs, this`initMaps, this`fdArray, this`logLevel
      ensures initProgs == progs && initMaps == maps && logLevel == log && fdArray == 0
      ensures error == 0 ==> dataLen >= 4 * MAX_FD_ARRAY_SZ
    {
      hide Gen.Guard;
      initProgs, initMaps := progs, maps;
      fdArray := AddData(4 * MAX_FD_ARRAY_SZ);
      logLevel := log;
    }

    lemma ReadyToGo()
      requires fdArray == nrMaps == nrProgs == 0 && ksyms == [] && nrFdArray == 0 && requests == [] && progCalls == mapCalls == []
      requires Guard() ==> Typing() && Cur() == READY && debts == {} && stage == Loading && dataLen >= 4 * MAX_FD_ARRAY_SZ
      ensures Ready()
    {
      hide Gen.Typing, Gen.Guard, Gen.Cur, PlacesOk;
      PlacesStart(btfLoaded, innerOpen);
    }

    method EmitPreamble(progs: nat, maps: nat)
      requires insns == [] && notes == [START] && debts == {} && stage == Starting && fdArray == 0
      requires progs == initProgs && maps == initMaps
      modifies this`insns, this`notes, this`error, this`debts, this`dataLen, this`stage, this`cleanupEnd, this`cleanupLabel
      ensures dataLen >= old(dataLen)
      ensures Guard() ==> old(Guard()) && Typing() && Cur() == READY && debts == {} && stage == Loading
      ensures error == 0 ==> old(error) == 0 && Begun(insns, cleanupLabel, CleanupLen(2 + progs, maps, logLevel))
      ensures error == 0 ==> |insns| == cleanupLabel + CleanupLen(2 + progs, maps, logLevel)
    {
      hide Gen.Typing, Gen.Guard, Gen.Cur, FlowOn, FlowJump, Pieces, CleanNote, Words, CleanupLen;
      var skip := CleanupLen(2 + progs, maps, logLevel);
      if Guard() { GuardMeans(); }
      EmitStart(skip);
      EmitCleanup(2 + progs, maps);
    }

    method EmitStart(skip: nat)
      requires insns == [] && notes == [START] && debts == {} && stage == Starting
      requires Guard() ==> skip <= INT16_MAX
      modifies this`insns, this`notes, this`error, this`debts, this`cleanupLabel
      ensures Guard() ==> old(Guard()) && Typing() && Cur() == Dead && insns == PROLOG + [Ja(skip)]
      ensures Guard() ==> debts == {Debt(|insns| + skip, READY)}
      ensures error == 0 ==> old(error) == 0 && insns == PROLOG + [Ja(Signed16(skip))]
      ensures cleanupLabel == |insns|
    {
      hide Gen.Typing, Gen.Guard, Gen.Cur, FlowOn, FlowJump;
      EmitProlog();
      EmitSkipCleanup(skip);
      MarkLabel();
    }

    /** Remembers where the cleanup block starts. */
    method MarkLabel()
      requires stage == Starting
      modifies this`cleanupLabel
      ensures cleanupLabel == |insns| && (old(Typing()) ==> Typing())
    {
      hide Typed;
      cleanupLabel := |insns|;
    }

    // ----- Commands -------------------------------------------------------------------------------

    /** Between commands: everything open is stored where the cleanup block finds it. */
    ghost predicate Ready()
      reads this
    {
      && fdArray == 0 && nrMaps <= MAX_USED_MAPS
      && (Guard() ==>
            && Typing() && Steady(Cur()) && Settled(Cur().books) && debts == {} && stage == Loading
            && dataLen >= 4 * MAX_FD_ARRAY_SZ && PlacesOk(Cur(), nrProgs, nrMaps, btfLoaded, innerOpen)
            && Listed() && ksyms == [] && nrFdArray == 0)
    }

    /** The note says what has been asked. */
    ghost predicate AskedSoFar()
      reads this`insns, this`notes, this`requests
    {
      Cur().Note? && Cur().books.asked == Exactly(requests)
    }

    /** The requests so far, and where the answers to those for programs and maps are. */
    ghost predicate Listed()
      reads this`insns, this`notes, this`requests, this`progCalls, this`mapCalls, this`nrProgs, this`nrMaps
    {
      && AskedSoFar() && |progCalls| == nrProgs && |mapCalls| == nrMaps
      && HeldProgs(Cur().books.held, progCalls) && HeldMaps(Cur().books.held, mapCalls)
      && CallsOf(requests, progCalls, PROG_LOAD) && CallsOf(requests, mapCalls, MAP_CREATE)
    }

    /** In the middle of a command that may open a descriptor. */
    ghost predicate Busy()
      reads this
    {
      && Typing() && Steady(Cur()) && debts == {} && stage == Loading
      && dataLen >= 4 * MAX_FD_ARRAY_SZ && PlacesOk(Cur(), nrProgs, nrMaps, btfLoaded, innerOpen) && Listed()
    }

    /** Copies the log settings of the context into an attribute block. */
    method EmitLogSettings(levelOff: int, sizeOff: int, bufOff: int)
      requires Guard() ==> Typing() && Steady(Cur()) && debts == {}
      requires Guard() ==> IsElsewhere(levelOff) && IsElsewhere(sizeOff) && IsElsewhere(bufOff)
      modifies this`insns, this`notes, this`error, this`debts
      ensures Guard() ==> old(Guard()) && Typing() && Steady(Cur()) && debts == {} && Same(old(Cur()), Cur(), {0, 1})
      ensures Guard() ==> insns == old(insns) + LogCode(levelOff, sizeOff, bufOff)
    {
      hide Gen.Typing, Gen.Guard, Gen.Cur, FlowOn, FlowJump, CtxCode;
      MoveCtx2Blob(levelOff, W, CTX_LOG_LEVEL, false);
      MoveCtx2Blob(sizeOff, W, CTX_LOG_SIZE, false);
      MoveCtx2Blob(bufOff, DW, CTX_LOG_BUF, false);
    }

    /** Issues a command and leaves for the cleanup block if it fails. */
    method EmitCommand(cmd: int, attr: int, attrSize: int)
      requires Guard() ==> Busy() && Settled(Cur().books) && IsElsewhere(attr)
      modifies this`insns, this`notes, this`error, this`debts, this`dataLen, this`requests
      ensures Guard() ==> old(Guard()) && Busy() && Cur().regs[7] == LastResult
      ensures Guard() ==> Cur().books == AfterRequest(old(Cur()).books, Bpf(cmd)).(owes := Paid)
      ensures requests == old(requests) + [Bpf(cmd)] && (Guard() ==> |requests| - 1 !in mapCalls)
      ensures Guard() ==> old(insns) + AskCode(cmd, attr, attrSize) <= insns
    {
      hide Gen.Typing, Gen.Guard, Gen.Cur, FlowOn, FlowJump, Words, AskCode;
      hide CallsOf, HeldProgs, HeldMaps, FitsIn, PlacesOk;
      ghost var n := Cur();
      EmitAsk(cmd, attr, attrSize);
      if Guard() {
        GuardMeans();
        PlacesAsked(n, Cur(), nrProgs, nrMaps, btfLoaded, innerOpen, initProgs, initMaps);
      }
      EmitCheckErr();
    }

    /** A command whose result has not been checked yet. */
    method EmitAsk(cmd: int, attr: int, attrSize: int)
      requires Guard() ==> Typing() && Steady(Cur()) && debts == {} && Listed() && Settled(Cur().books) && IsElsewhere(attr)
      modifies this`insns, this`notes, this`error, this`dataLen, this`requests
      ensures dataLen >= old(dataLen)
      ensures Guard() ==> old(Guard()) && Typing() && Steady(Cur()) && Listed() && Cur().regs[7] == LastResult
      ensures Guard() ==> Cur().books == AfterRequest(old(Cur()).books, Bpf(cmd))
      ensures requests == old(requests) + [Bpf(cmd)] && (Guard() ==> |requests| - 1 !in mapCalls)
      ensures Guard() ==> old(insns) + AskCode(cmd, attr, attrSize) <= insns
    {
      hide Gen.Typing, Gen.Guard, Gen.Cur, FlowOn, FlowJump, CallsOf, HeldProgs, HeldMaps, AskCode;
      ghost var rs := requests;
      EmitSysBpf(cmd, attr, attrSize);
      DebugRegs(7, -1);
      if Guard() {
        CallsMore(rs, requests, progCalls, PROG_LOAD);
        CallsMore(rs, requests, mapCalls, MAP_CREATE);
        NotYet(rs, mapCalls, MAP_CREATE);
      }
    }

    /** Remembers the last result in a stack word. */
    method EmitStoreStack(off: int)
      requires Guard() ==> Typing() && Steady(Cur()) && debts == {} && Cur().regs[7] == LastResult
      requires Guard() ==> off % 4 == 0 && (IsStackWord(W, off) ==> StackWord(off) !in Cur().books.stk)
      modifies this`insns, this`notes, this`error
      ensures Guard() ==> old(Guard()) && Typing() && Steady(Cur())
      ensures Guard() ==> Cur().books == WordStored(old(Cur()).books, off)
      ensures error == EDOM ==> old(error) == EDOM
    {
      hide Gen.Typing, Gen.Guard, Gen.Cur;
      Emit(Stx(W, 10, 7, off));
    }

    /** Remembers the last result in the slot of map idx. */
    method EmitStoreSlot(idx: nat)
      requires Guard() ==> Typing() && Steady(Cur()) && debts == {} && Cur().regs[7] == LastResult
      requires Guard() ==> idx < MAX_USED_MAPS && idx !in Cur().books.maps && fdArray == 0
      modifies this`insns, this`notes, this`error
      ensures Guard() ==> old(Guard()) && Typing() && Steady(Cur())
      ensures Guard() ==> Cur().books == SlotStored(old(Cur()).books, idx)
      ensures error == EDOM ==> old(error) == EDOM
    {
      hide Gen.Typing, Gen.Guard, Gen.Cur;
      LoadBlobAddr(1, fdArray + 4 * idx);
      Emit(Stx(W, 1, 7, 0));
    }

    /** Generates the loading of BTF data. */
    method LoadBtf(size: nat)
      requires Ready()
      modifies this`insns, this`notes, this`error, this`debts, this`dataLen, this`btfLoaded, this`reused, this`requests
      ensures Ready() && btfLoaded && reused == old(reused || btfLoaded)
      ensures requests == old(requests) + [Bpf(BTF_LOAD)]
    {
      hide Gen.Typing, Gen.Guard, Gen.Cur, FlowOn, FlowJump, Words;
      hide PlacesOk, Gen.Listed;
      Reuse(btfLoaded);
      EmitBtfLoad(size);
      StoreBtf();
    }

    method EmitBtfLoad(size: nat)
      requires Ready()
      modifies this`insns, this`notes, this`error, this`debts, this`dataLen, this`requests
      ensures Guard() ==> old(Guard()) && Busy() && Cur().regs[7] == LastResult && Settled(Cur().books.(pend := false))
      ensures requests == old(requests) + [Bpf(BTF_LOAD)]
      ensures Guard() ==> LoadsBtf(old(insns), insns, old(dataLen))
    {
      hide BtfAttrCode, AskCode;
      hide Gen.Typing, Gen.Guard, Gen.Cur, FlowOn, FlowJump, Words, PlacesOk;
      hide HeldProgs, HeldMaps, CallsOf;
      var data := AddData(size);
      var attr := AddData(28);
      EmitBtfAttr(attr, data);
      EmitCommand(BTF_LOAD, attr, 28);
    }

    method StoreBtf()
      requires Guard() ==> Busy() && Cur().regs[7] == LastResult && Settled(Cur().books.(pend := false)) && !btfLoaded
      modifies this`insns, this`notes, this`error, this`btfLoaded
      ensures btfLoaded && (Guard() ==> old(Guard()) && Busy() && Settled(Cur().books))
    {
      hide Gen.Typing, Gen.Guard, Gen.Cur, FlowOn, FlowJump, Words, PlacesOk;
      ghost var n := Cur();
      if Guard() { PlacesFree(n, nrProgs, nrMaps, innerOpen); }
      EmitStoreStack(BTF_FD);
      if Guard() {
        PlacesWord(n, Cur(), BTF_FD, 0, nrProgs, nrMaps, false, true, innerOpen, innerOpen);
        HeldElsewhere(n.books, BTF_FD, progCalls, mapCalls);
      }
      btfLoaded := true;
    }

    /** Marks that the place of a descriptor is used for another one that is open at the same time. */
    ghost method Reuse(again: bool)
      modifies this`reused
      ensures reused == (old(reused) || again) && (Guard() ==> old(Guard()) && !again) && (old(Ready()) ==> Ready())
    {
      hide Gen.Typing, Gen.Cur, PlacesOk, Gen.Listed, Settled;
      reused := reused || again;
    }

    method EmitBtfAttr(attr: int, data: int)
      requires Guard() ==> Busy() && IsElsewhere(attr)
      modifies this`insns, this`notes, this`error, this`debts
      ensures Guard() ==> old(Guard()) && Busy() && Same(old(Cur()), Cur(), {0, 1})
      ensures Guard() ==> insns == old(insns) + BtfAttrCode(attr, data)
    {
      hide Gen.Typing, Gen.Guard, Gen.Cur, FlowOn, FlowJump, LogCode, PointerCode;
      EmitLogSettings(attr + 24, attr + 20, attr + 8);
      EmitRelStore(attr, data);
    }

    /** The slot of one more map. */
    method AddMapFd() returns (idx: nat)
      requires nrMaps <= MAX_USED_MAPS
      modifies this`nrMaps, this`error
      ensures nrMaps <= MAX_USED_MAPS && idx < MAX_USED_MAPS
      ensures Guard() ==> old(Guard()) && idx == old(nrMaps) && nrMaps == old(nrMaps) + 1
      ensures nrMaps == old(nrMaps) || nrMaps == old(nrMaps) + 1
      ensures error == if old(nrMaps) == MAX_USED_MAPS then E2BIG else old(error)
    {
      if nrMaps == MAX_USED_MAPS {
        error := E2BIG;
        return 0;
      }
      idx := nrMaps;
      nrMaps := nrMaps + 1;
    }

    /** Generates the creation of map mapIdx, or of an inner map when mapIdx is negative. */
    method MapCreate(ofMaps: bool, hasValueType: bool, mapIdx: int)
      requires Ready()
      modifies this`insns, this`notes, this`error, this`debts, this`dataLen, this`nrMaps, this`innerOpen, this`reused, this`requests, this`mapCalls
      ensures Ready() && reused == old(reused || (mapIdx < 0 && innerOpen))
      ensures Guard() ==> nrMaps == if mapIdx < 0 then old(nrMaps) else old(nrMaps) + 1
      ensures innerOpen == (!ofMaps && (mapIdx < 0 || old(innerOpen))) || error != 0
      ensures requests == old(requests) + [Bpf(MAP_CREATE)]
      ensures Guard() ==> mapCalls == if mapIdx < 0 then old(mapCalls) else old(mapCalls) + [|old(requests)|]
    {
      hide CreatesMap;
      hide Gen.Typing, Gen.Guard, Gen.Cur, FlowOn, FlowJump, Words;
      hide PlacesOk, HeldProgs, HeldMaps, CallsOf;
      hide Gen.Listed, Gen.Ready, Gen.Busy, Settled;
      Reuse(mapIdx < 0 && innerOpen);
      EmitMapCreate(ofMaps, hasValueType, mapIdx);
      FileMap(mapIdx);
      if error != 0 {
        GuardNeedsNoError();
        BusyIsReady();
        return;
      }
      if ofMaps { CloseInner(); }
      BusyIsReady();
    }

    /** Remembers the descriptor of a map or an inner map, unless maps are created out of order. */
    method FileMap(mapIdx: int)
      requires fdArray == 0 && nrMaps <= MAX_USED_MAPS
      requires Guard() ==> Busy() && Cur().regs[7] == LastResult && Settled(Cur().books.(pend := false)) && Cur().books.pend
      requires Guard() ==> requests != [] && requests[|requests| - 1] == Bpf(MAP_CREATE) && |requests| - 1 !in mapCalls
      requires Guard() && mapIdx < 0 ==> !innerOpen
      modifies this`insns, this`notes, this`error, this`nrMaps, this`innerOpen, this`mapCalls
      ensures nrMaps <= MAX_USED_MAPS && innerOpen == (old(innerOpen) || mapIdx < 0)
      ensures Guard() ==> old(Guard()) && Busy() && Settled(Cur().books) && nrMaps == if mapIdx < 0 then old(nrMaps) else old(nrMaps) + 1
      ensures Guard() ==> mapCalls == if mapIdx < 0 then old(mapCalls) else old(mapCalls) + [|requests| - 1]
      ensures old(error) != EDOM ==> (error == EDOM <==> 0 <= mapIdx != old(nrMaps))
    {
      hide Gen.Typing, Gen.Guard, Gen.Cur, FlowOn, FlowJump, Words, Gen.Listed, PlacesOk;
      if mapIdx < 0 {
        RecordInner();
      } else if mapIdx != nrMaps {
        error := EDOM;
        GuardNeedsNoError();
      } else {
        RecordMap();
      }
    }

    lemma BusyIsReady()
      requires fdArray == 0 && nrMaps <= MAX_USED_MAPS
      requires Guard() ==> Busy() && Settled(Cur().books) && ksyms == [] && nrFdArray == 0
      ensures Ready()
    {
    }

    method EmitMapCreate(ofMaps: bool, hasValueType: bool, mapIdx: int)
      requires Ready()
      modifies this`insns, this`notes, this`error, this`debts, this`dataLen, this`requests
      ensures Guard() ==> old(Guard()) && Busy() && Cur().regs[7] == LastResult && Settled(Cur().books.(pend := false)) && Cur().books.pend
      ensures requests == old(requests) + [Bpf(MAP_CREATE)] && (Guard() ==> |requests| - 1 !in mapCalls)
      ensures fdArray == 0 && nrMaps <= MAX_USED_MAPS && (Guard() ==> ksyms == [] && nrFdArray == 0)
      ensures Guard() ==> CreatesMap(old(insns), insns, ofMaps, hasValueType, mapIdx)
    {
      hide Gen.Typing, Gen.Guard, Gen.Cur, FlowOn, FlowJump, Words, MapAttrCode, AskCode;
      hide PlacesOk, HeldProgs, HeldMaps, CallsOf;
      var attr := AddData(72);
      EmitMapAttr(attr, ofMaps, hasValueType, mapIdx);
      EmitCommand(MAP_CREATE, attr, 72);
    }

    lemma GuardNeedsNoError()
      ensures error != 0 ==> !Guard()
    {
    }

    method RecordMap()
      requires fdArray == 0 && nrMaps <= MAX_USED_MAPS
      requires Guard() ==> Busy() && Cur().regs[7] == LastResult && Settled(Cur().books.(pend := false)) && Cur().books.pend
      requires Guard() ==> requests != [] && requests[|requests| - 1] == Bpf(MAP_CREATE) && |requests| - 1 !in mapCalls
      modifies this`insns, this`notes, this`error, this`nrMaps, this`mapCalls
      ensures nrMaps <= MAX_USED_MAPS
      ensures Guard() ==> old(Guard()) && Busy() && Settled(Cur().books) && nrMaps == old(nrMaps) + 1
      ensures Guard() ==> mapCalls == old(mapCalls) + [|requests| - 1]
      ensures error == EDOM ==> old(error) == EDOM
    {
      hide Gen.Typing, Gen.Guard, Gen.Cur, FlowOn, FlowJump, Words;
      hide HeldProgs, HeldMaps, CallsOf;
      ghost var n := Cur();
      var idx := AddMapFd();
      EmitStoreSlot(idx);
      if Guard() {
        HeldMap(n.books, requests, progCalls, mapCalls, idx);
        LastCall(requests, mapCalls, MAP_CREATE);
        mapCalls := mapCalls + [|requests| - 1];
      }
    }

    method RecordInner()
      requires Guard() ==> Busy() && Cur().regs[7] == LastResult && Settled(Cur().books.(pend := false)) && !innerOpen
      modifies this`insns, this`notes, this`error, this`innerOpen
      ensures innerOpen && (Guard() ==> old(Guard()) && Busy() && Settled(Cur().books))
      ensures error == EDOM ==> old(error) == EDOM
    {
      hide Gen.Typing, Gen.Guard, Gen.Cur, FlowOn, FlowJump, Words, PlacesOk;
      ghost var n := Cur();
      if Guard() { PlacesInnerFree(n, nrProgs, nrMaps, btfLoaded); }
      EmitStoreStack(INNER_MAP_FD);
      if Guard() {
        PlacesWord(n, Cur(), INNER_MAP_FD, 1, nrProgs, nrMaps, btfLoaded, btfLoaded, false, true);
        HeldElsewhere(n.books, INNER_MAP_FD, progCalls, mapCalls);
      }
      innerOpen := true;
    }

    method CloseInner()
      requires Guard() ==> Busy() && Settled(Cur().books)
      modifies this`insns, this`notes, this`error, this`debts, this`dataLen, this`innerOpen
      ensures Guard() ==> old(Guard()) && Busy() && Settled(Cur().books)
      ensures !innerOpen
    {
      hide Gen.Typing, Gen.Guard, Gen.Cur, FlowOn, FlowJump, Words;
      EmitCloseStack(INNER_MAP_FD);
      innerOpen := false;
    }

    method EmitMapAttr(attr: int, ofMaps: bool, hasValueType: bool, mapIdx: int)
      requires Guard() ==> Busy() && IsElsewhere(attr)
      modifies this`insns, this`notes, this`error, this`debts
      ensures Guard() ==> old(Guard()) && Busy() && Same(old(Cur()), Cur(), {0, 1})
      ensures Guard() ==> insns == old(insns) + MapAttrCode(attr, ofMaps, hasValueType, mapIdx)
    {
      hide Gen.Typing, Gen.Guard, Gen.Cur, FlowOn, FlowJump, Words, StackCode, CtxCode;
      if hasValueType { MoveStack2Blob(attr + 48, BTF_FD); }
      if ofMaps { MoveStack2Blob(attr + 20, INNER_MAP_FD); }
      if mapIdx >= 0 { MoveCtx2Blob(attr + 12, W, Signed16(CTX_SZ + MAP_DESC_SZ * mapIdx + 4), true); }
    }

    /** Generates the setting of a map's initial value, taken from the context if it is given there. */
    method MapUpdateElem(mapIdx: nat, valueSize: nat)
      requires Ready()
      modifies this`insns, this`notes, this`error, this`debts, this`dataLen, this`requests
      ensures Ready() && requests == old(requests) + [Bpf(MAP_UPDATE_ELEM)]
      ensures Guard() ==> SetsMap(old(insns) + InitialCode(mapIdx, old(dataLen), valueSize), insns, fdArray + 4 * mapIdx, old(dataLen))
    {
      hide Gen.Typing, Gen.Guard, Gen.Cur, FlowOn, FlowJump, Words, UpdatesMap, InitialCode;
      hide Gen.Listed, PlacesOk, IsRounded;
      var value := AddData(valueSize);
      var key := AddData(4);
      EmitMapValue(mapIdx, value, valueSize);
      UpdateElem(fdArray + 4 * mapIdx, key, value);
    }

    method EmitMapValue(mapIdx: nat, value: int, valueSize: nat)
      requires Guard() ==> Busy() && IsElsewhere(value)
      modifies this`insns, this`notes, this`error, this`debts
      ensures Guard() ==> old(Guard()) && Busy() && Cur().books == old(Cur()).books
      ensures Guard() ==> insns == old(insns) + InitialCode(mapIdx, value, valueSize)
    {
      hide Gen.Typing, Gen.Guard, Gen.Cur, FlowOn, FlowJump, Words, HeldProgs, HeldMaps, CallsOf, InitialCode;
      EmitInitialValue(mapIdx, value, valueSize);
    }

    /** Stores a value or an inner map in a map. */
    method UpdateElem(mapFd: int, key: int, value: int)
      requires Guard() ==> Busy() && Settled(Cur().books) && Readable(W, mapFd)
      modifies this`insns, this`notes, this`error, this`debts, this`dataLen, this`requests
      ensures Guard() ==> old(Guard()) && Busy() && Settled(Cur().books)
      ensures requests == old(requests) + [Bpf(MAP_UPDATE_ELEM)]
      ensures Guard() ==> UpdatesMap(old(insns), insns, mapFd, key, value)
    {
      hide Gen.Typing, Gen.Guard, Gen.Cur, FlowOn, FlowJump, Words, HeldProgs, HeldMaps, CallsOf, PlacesOk, IsRounded, Readable;
      hide CopyCode, PointerCode, AskCode;
      var attr := AddData(32);
      EmitElemAttr(attr, mapFd, key, value);
      EmitCommand(MAP_UPDATE_ELEM, attr, 32);
    }

    method EmitElemAttr(attr: int, mapFd: int, key: int, value: int)
      requires Guard() ==> Busy() && IsElsewhere(attr) && Readable(W, mapFd)
      modifies this`insns, this`notes, this`error
      ensures Guard() ==> old(Guard()) && Busy() && Same(old(Cur()), Cur(), {0, 1, 2})
      ensures Guard() ==> insns == old(insns) + (CopyCode(attr, W, mapFd) + PointerCode(attr + 8, key) + PointerCode(attr + 16, value))
    {
      hide Gen.Typing, Gen.Guard, Gen.Cur, FlowOn, FlowJump, Words, CopyCode, PointerCode;
      MoveBlob2Blob(attr, W, mapFd);
      EmitRelStore(attr + 8, key);
      EmitRelStore(attr + 16, value);
    }

    /** Takes the initial value of a map from the kernel or from user space, if the context gives one. */
    method EmitInitialValue(mapIdx: nat, value: int, valueSize: nat)
      requires Guard() ==> Typing() && Steady(Cur()) && debts == {} && IsElsewhere(value)
      modifies this`insns, this`notes, this`error, this`debts
      ensures Guard() ==> old(Guard()) && Typing() && Steady(Cur()) && debts == {}
      ensures Guard() ==> Same(old(Cur()), Cur(), {0, 1, 2, 3, 4, 5})
      ensures Guard() ==> insns == old(insns) + InitialCode(mapIdx, value, valueSize)
    {
      hide Gen.Typing, Gen.Guard, Gen.Cur, FlowOn, FlowJump, Words, ReadArgsCode, ReadCode;
      EmitLdxCtx(DW, 3, Signed16(CTX_SZ + MAP_DESC_SZ * mapIdx + 8));
      EmitTest(Jeq, 3, 0, 8);
      EmitReadArgs(value, valueSize);
      EmitReadEither();
      Meet({0, 1, 2, 3, 4, 5});
    }

    method EmitReadArgs(value: int, valueSize: nat)
      requires Guard() ==> Typing() && Steady(Cur()) && DueFrom(debts, |insns| + 4)
      modifies this`insns, this`notes, this`error
      ensures Guard() ==> old(Guard()) && Typing() && Steady(Cur()) && |insns| == old(|insns|) + 4
      ensures Guard() ==> Same(old(Cur()), Cur(), {0, 1, 2}) && Cur().regs[1] == IsBlob(value)
      ensures Guard() ==> IsNumeric(Cur().regs[2]) && IsNumeric(Cur().regs[0])
      ensures Guard() ==> insns == old(insns) + ReadArgsCode(value, valueSize)
    {
      hide Gen.Typing, Gen.Guard, Gen.Cur, FlowOn, FlowJump, Words;
      LoadBlobAddr(1, value);
      EmitMovImm(2, valueSize);
      EmitLdxCtx(W, 0, CTX_FLAGS);
    }

    /** Reads from user space or, when the kernel flag is set, from the kernel. */
    method EmitReadEither()
      requires Guard() ==> Typing() && Steady(Cur()) && DueFrom(debts, |insns| + 4) && IsNumeric(Cur().regs[0])
      requires Guard() ==> BufferType(Cur().regs[1]) && IsNumeric(Cur().regs[2]) && IsNumeric(Cur().regs[3])
      modifies this`insns, this`notes, this`error, this`debts
      ensures Guard() ==> old(Guard()) && Typing() && Steady(Cur()) && |insns| == old(|insns|) + 4
      ensures Guard() ==> Same(old(Cur()), Cur(), {0, 1, 2, 3, 4, 5})
      ensures Guard() ==> exists d :: debts == old(debts) + {d} && d.target == |insns| && Same(old(Cur()), d.note, {0, 1, 2, 3, 4, 5})
      ensures Guard() ==> insns == old(insns) + ReadCode()
    {
      hide Gen.Typing, Gen.Guard, Gen.Cur, FlowOn, FlowJump, Words;
      ghost var n := Cur();
      if Guard() { CurWell(); }
      EmitTest(Jset, 0, SKEL_KERNEL, 2);
      EmitRead(CopyFromUser);
      EmitSkip(1);
      LandAt(n);
      EmitRead(ProbeReadKernel);
    }

    /** Generates the storing of an inner map in an outer one. */
    method PopulateOuterMap(outerIdx: nat, innerIdx: nat)
      requires Ready()
      modifies this`insns, this`notes, this`error, this`debts, this`dataLen, this`requests
      ensures Ready() && requests == old(requests) + [Bpf(MAP_UPDATE_ELEM)]
      ensures Guard() ==> UpdatesMap(old(insns), insns, fdArray + 4 * outerIdx, old(dataLen), fdArray + 4 * innerIdx)
    {
      hide Gen.Typing, Gen.Guard, Gen.Cur, FlowOn, FlowJump, Words, UpdatesMap;
      hide Gen.Listed, PlacesOk, IsRounded;
      var key := AddData(4);
      UpdateElem(fdArray + 4 * outerIdx, key, fdArray + 4 * innerIdx);
    }

    method MapFreeze(mapIdx: nat)
      requires Ready()
      modifies this`insns, this`notes, this`error, this`debts, this`dataLen, this`requests
      ensures Ready() && requests == old(requests) + [Bpf(MAP_FREEZE)]
      ensures Guard() ==> FreezesMap(old(insns), insns, fdArray + 4 * mapIdx)
    {
      hide Gen.Typing, Gen.Guard, Gen.Cur, FlowOn, FlowJump, Words, CopyCode, AskCode;
      hide HeldProgs, HeldMaps, CallsOf, PlacesOk;
      var attr := AddData(4);
      EmitFreezeAttr(attr, fdArray + 4 * mapIdx);
      EmitCommand(MAP_FREEZE, attr, 4);
    }

    method EmitFreezeAttr(attr: int, mapFd: int)
      requires Guard() ==> Busy() && IsElsewhere(attr) && Readable(W, mapFd)
      modifies this`insns, this`notes, this`error
      ensures Guard() ==> old(Guard()) && Busy() && Same(old(Cur()), Cur(), {0, 1, 2})
      ensures Guard() ==> insns == old(insns) + CopyCode(attr, W, mapFd)
    {
      hide Gen.Typing, Gen.Guard, Gen.Cur, FlowOn, FlowJump, Words, HeldProgs, HeldMaps, CallsOf, CopyCode;
      MoveBlob2Blob(attr, W, mapFd);
    }

    /** Ends the loader.  It keeps all promises (LoaderOutcome, HandsOver) if the caller announces what it
        announced at the beginning, no descriptor place was used twice and the first jump fits. */
    method Finish(progs: nat, maps: nat) returns (err: int)
      requires Ready()
      modifies this
      ensures err == error
      ensures err == 0 ==> old(error) == 0 && nrMaps == maps == old(nrMaps) && nrProgs == old(nrProgs) <= progs
      ensures err == 0 && progs <= initProgs && maps == initMaps && Skippable(initProgs, maps, logLevel) && !reused ==>
                && Finished(insns, notes, cleanupLabel, cleanupEnd, initProgs, nrProgs, requests)
                && HandsOver(notes[|insns| - 1], progCalls, mapCalls) && |progCalls| == nrProgs && |mapCalls| == maps
                && CallsOf(requests, progCalls, PROG_LOAD) && CallsOf(requests, mapCalls, MAP_CREATE)
      ensures requests == old(requests) && progCalls == old(progCalls) && mapCalls == old(mapCalls)
      ensures initProgs == old(initProgs) && initMaps == old(initMaps) && logLevel == old(logLevel) && reused == old(reused)
    {
      if progs < nrProgs || maps != nrMaps {
        error := EFAULT;
        return error;
      }
      EmitResults();
      return error;
    }

    /** Hands over the descriptors through the context and returns success. */
    method EmitResults()
      requires fdArray == 0 && nrMaps <= MAX_USED_MAPS && (Guard() ==> Busy() && Settled(Cur().books))
      modifies this`insns, this`notes, this`error, this`debts, this`dataLen, this`stage
      ensures error == 0 ==> old(error) == 0
      ensures Guard() ==> old(Guard()) && Finished(insns, notes, cleanupLabel, cleanupEnd, initProgs, nrProgs, requests)
      ensures Guard() ==> HandsOver(notes[|insns| - 1], progCalls, mapCalls)
    {
      hide Gen.Typing, Gen.Guard, Gen.Cur, FlowOn, FlowJump, Words, Finished, HandsOver, OutProgs, OutMaps;
      hide PlacesOk, HeldProgs, HeldMaps, CallsOf;
      ghost var n := Cur();
      EmitCloseStack(BTF_FD);
      if Guard() { PlacesLevel(n, nrProgs, nrMaps, btfLoaded, innerOpen); }
      EmitHandOver();
      EmitMovImm(0, 0);
      if Guard() { ResultsExit(n, Cur(), progCalls, mapCalls, btfLoaded, innerOpen); }
      EmitSuccess();
    }

    method EmitSuccess()
      requires Guard() ==> Typing() && Steady(Cur()) && debts == {} && stage == Loading && ExitOk(Cur())
      requires Guard() ==> ExitNote(Cur(), false, nrProgs) && HandsOver(Cur(), progCalls, mapCalls) && AskedSoFar()
      modifies this`insns, this`notes, this`error, this`stage
      ensures error == 0 ==> old(error) == 0
      ensures Guard() ==> old(Guard()) && Finished(insns, notes, cleanupLabel, cleanupEnd, initProgs, nrProgs, requests)
      ensures Guard() ==> |insns| > 0 && |notes| >= |insns| && HandsOver(notes[|insns| - 1], progCalls, mapCalls)
    {
      hide Typed, Layout, ExitOk, HandsOver, Gen.Guard;
      ghost var p, ns := insns, notes;
      stage := Ending;
      Emit(Exit);
      if Guard() { SuccessFinishes(p, ns, cleanupLabel, cleanupEnd, initProgs, initMaps, nrProgs, requests, notes); }
    }

    /** Copies all program and map descriptors into the context. */
    method EmitHandOver()
      requires nrMaps <= MAX_USED_MAPS && fdArray == 0
      requires Guard() ==> Typing() && Steady(Cur()) && debts == {} && Level(Cur().books, nrProgs)
      modifies this`insns, this`notes, this`error
      ensures error == 0 ==> old(error) == 0
      ensures Guard() ==> old(Guard()) && Typing() && Steady(Cur()) && OnlyOut(old(Cur()).books, Cur().books)
      ensures Guard() ==> OutProgs(Cur().books.out, nrProgs, nrMaps) && OutMaps(Cur().books.out, nrMaps)
    {
      hide Gen.Typing, Gen.Guard, Gen.Cur, FlowOn, FlowJump, Words, OutProgs, OutMaps;
      NothingOut(Cur(), nrMaps);
      EmitHandOverProgs();
      EmitHandOverMaps();
    }

    method EmitHandOverProgs()
      requires nrMaps <= MAX_USED_MAPS
      requires Guard() ==> Typing() && Steady(Cur()) && debts == {} && Level(Cur().books, nrProgs)
      modifies this`insns, this`notes, this`error
      ensures error == 0 ==> old(error) == 0
      ensures Guard() ==> old(Guard()) && Typing() && Steady(Cur()) && OnlyOut(old(Cur()).books, Cur().books)
      ensures Guard() ==> OutProgs(Cur().books.out, nrProgs, nrMaps)
    {
      hide Gen.Typing, Gen.Guard, Gen.Cur, FlowOn, FlowJump, Words, OutProgs;
      var i := 0;
      if Guard() { NoProgsOut(Cur().books.out, nrMaps); }
      while i < nrProgs
        invariant 0 <= i <= nrProgs && (error == 0 ==> old(error) == 0)
        invariant Guard() ==> old(Guard()) && Typing() && Steady(Cur()) && OnlyOut(old(Cur()).books, Cur().books)
        invariant Guard() ==> OutProgs(Cur().books.out, i, nrMaps)
      {
        EmitHandOverProg(i);
        i := i + 1;
      }
    }

    method EmitHandOverProg(i: nat)
      requires nrMaps <= MAX_USED_MAPS && i < nrProgs
      requires Guard() ==> Typing() && Steady(Cur()) && debts == {} && AnyLevel(Cur().books, nrProgs) && OutProgs(Cur().books.out, i, nrMaps)
      modifies this`insns, this`notes, this`error
      ensures error == 0 ==> old(error) == 0
      ensures Guard() ==> old(Guard()) && Typing() && Steady(Cur()) && OnlyOut(old(Cur()).books, Cur().books)
      ensures Guard() ==> OutProgs(Cur().books.out, i + 1, nrMaps)
    {
      hide Gen.Typing, Gen.Guard, Gen.Cur, FlowOn, FlowJump, Words, OutProgs, Signed16, CopiedTo, WordLoaded, OnlyOut;
      ghost var n := Cur();
      ProgOffset(i);
      ProgCtxOffset(i, nrMaps);
      MoveStack2Ctx(Signed16(ProgCtx(nrMaps, i)), ProgFd(i));
      if Guard() {
        GuardMeans();
        ProgCopied(n, Cur(), i, nrProgs, nrMaps);
      }
    }

    method EmitHandOverMaps()
      requires nrMaps <= MAX_USED_MAPS && fdArray == 0
      requires Guard() ==> Typing() && Steady(Cur()) && debts == {} && OutProgs(Cur().books.out, nrProgs, nrMaps)
      modifies this`insns, this`notes, this`error
      ensures error == 0 ==> old(error) == 0
      ensures Guard() ==> old(Guard()) && Typing() && Steady(Cur()) && OnlyOut(old(Cur()).books, Cur().books)
      ensures Guard() ==> OutProgs(Cur().books.out, nrProgs, nrMaps) && OutMaps(Cur().books.out, nrMaps)
    {
      hide Gen.Typing, Gen.Guard, Gen.Cur, FlowOn, FlowJump, Words, OutProgs, OutMaps, CopiedTo;
      var i := 0;
      if Guard() { NoMapsOut(Cur().books.out); }
      while i < nrMaps
        invariant 0 <= i <= nrMaps && (error == 0 ==> old(error) == 0)
        invariant Guard() ==> old(Guard()) && Typing() && Steady(Cur()) && OnlyOut(old(Cur()).books, Cur().books)
        invariant Guard() ==> OutProgs(Cur().books.out, nrProgs, nrMaps) && OutMaps(Cur().books.out, i)
      {
        ghost var n := Cur();
        MapCtxOffset(i);
        MoveBlob2Ctx(MapCtx(i), fdArray + 4 * i);
        if Guard() { MapCopied(n, Cur(), i, nrProgs, nrMaps); }
        i := i + 1;
      }
    }

    // ----- Relocations ----------------------------------------------------------------------------

    method RecordExtern(r: Relo)
      requires Ready()
      modifies this`relos, this`error
      ensures Ready() && (Guard() ==> old(Guard()) && relos == old(relos) + [r])
    {
      hide Gen.Typing, Gen.Cur, PlacesOk, Steady;
      var outOfMemory: bool := *;
      if outOfMemory {
        error := ENOMEM;
        return;
      }
      relos := relos + [r];
    }

    method RecordReloCore()
      requires Ready()
      modifies this`coreReloCnt, this`error
      ensures Ready() && (Guard() ==> old(Guard()) && coreReloCnt == old(coreReloCnt) + 1)
    {
      hide Gen.Typing, Gen.Cur, PlacesOk, Steady;
      var outOfMemory: bool := *;
      if outOfMemory {
        error := ENOMEM;
        return;
      }
      coreReloCnt := coreReloCnt + 1;
    }

    /** Names the kernel function or type that the next program attaches to. */
    method RecordAttachTarget(kind: int, len: nat)
      requires Ready()
      modifies this`attachKind, this`attachLen, this`error
      ensures Ready() && attachKind == kind && (Guard() ==> old(Guard()) && len < 128)
    {
      hide Gen.Typing, Gen.Cur, PlacesOk, Steady;
      attachKind, attachLen := kind, len;
      if len >= 128 { error := ENOSPC; }
    }

    /** Looks up a BTF id by name; the result stays in R7. */
    method EmitFind(nameLen: nat, kind: int, optional: bool)
      requires Guard() ==> Typing() && Steady(Cur()) && debts == {} && Settled(Cur().books)
      modifies this`insns, this`notes, this`error, this`dataLen, this`requests
      ensures dataLen >= old(dataLen)
      ensures Guard() ==> old(Guard()) && Typing() && Steady(Cur()) && Cur().regs[7] == LastResult
      ensures Guard() ==> HasResult(old(Cur()), Cur(), Find(optional))
      ensures requests == old(requests) + [Find(optional)]
    {
      hide Gen.Typing, Gen.Guard, Gen.Cur, FlowOn, FlowJump, Words;
      var name := AddData(nameLen);
      EmitFindCall(name, nameLen, kind, optional);
      DebugRegs(7, -1);
    }

    method EmitFindCall(name: int, nameLen: nat, kind: int, optional: bool)
      requires Guard() ==> Typing() && Steady(Cur()) && debts == {} && Settled(Cur().books)
      modifies this`insns, this`notes, this`error, this`requests
      ensures Guard() ==> old(Guard()) && Typing() && Steady(Cur()) && Cur().regs[7] == LastResult
      ensures Guard() ==> HasResult(old(Cur()), Cur(), Find(optional))
      ensures requests == old(requests) + [Find(optional)]
    {
      hide Gen.Typing, Gen.Guard, Gen.Cur, FlowOn, FlowJump, Words, AfterRequest;
      EmitFindArgs(name, nameLen, kind);
      EmitResultInR7(FindByNameKind(optional));
      requests := requests + [Find(optional)];
    }

    method EmitFindArgs(name: int, nameLen: nat, kind: int)
      requires Guard() ==> Typing() && Steady(Cur()) && debts == {}
      modifies this`insns, this`notes, this`error
      ensures Guard() ==> old(Guard()) && Typing() && Steady(Cur()) && Same(old(Cur()), Cur(), {1, 2, 3, 4})
      ensures Guard() ==> Cur().regs[1].IsBlob? && IsNumeric(Cur().regs[2]) && IsNumeric(Cur().regs[3]) && IsNumeric(Cur().regs[4])
    {
      hide Gen.Typing, Gen.Guard, Gen.Cur, FlowOn, FlowJump, Words;
      LoadBlobAddr(1, name);
      EmitMovImm(2, nameLen);
      EmitMovImm(3, kind);
      EmitMovImm(4, 0);
    }

    /** Looks up a kernel symbol; the result is in R7, the address in R9. */
    method EmitKallsyms(nameLen: nat)
      requires Guard() ==> Typing() && Steady(Cur()) && debts == {} && Settled(Cur().books) && dataLen >= 4 * MAX_FD_ARRAY_SZ
      modifies this`insns, this`notes, this`error, this`dataLen, this`requests
      ensures dataLen >= old(dataLen)
      ensures Guard() ==> old(Guard()) && Typing() && Steady(Cur()) && HasResult(old(Cur()), Cur(), Symbol)
      ensures Guard() ==> Cur().regs[7] == LastResult && IsNumeric(Cur().regs[9])
      ensures requests == old(requests) + [Symbol]
    {
      hide Gen.Typing, Gen.Guard, Gen.Cur, FlowOn, FlowJump, Words;
      var name := AddData(nameLen);
      var res := AddData(8);
      EmitKallsymsCall(name, nameLen, res);
      DebugRegs(7, -1);
    }

    method EmitKallsymsCall(name: int, nameLen: nat, res: int)
      requires Guard() ==> Typing() && Steady(Cur()) && debts == {} && Settled(Cur().books) && IsElsewhere(res)
      modifies this`insns, this`notes, this`error, this`requests
      ensures Guard() ==> old(Guard()) && Typing() && Steady(Cur()) && HasResult(old(Cur()), Cur(), Symbol)
      ensures Guard() ==> Cur().regs[7] == LastResult && IsNumeric(Cur().regs[9])
      ensures requests == old(requests) + [Symbol]
    {
      hide Gen.Typing, Gen.Guard, Gen.Cur, FlowOn, FlowJump, Words, AfterRequest;
      EmitKallsymsArgs(name, nameLen, res);
      EmitSymbolCall(res);
      requests := requests + [Symbol];
    }

    method EmitSymbolCall(res: int)
      requires Guard() ==> Typing() && Steady(Cur()) && debts == {} && FlowCall(Cur(), KallsymsLookup).To? && Cur().regs[7] == IsBlob(res) && IsElsewhere(res)
      modifies this`insns, this`notes, this`error
      ensures Guard() ==> old(Guard()) && Typing() && Steady(Cur()) && HasResult(old(Cur()), Cur(), Symbol)
      ensures Guard() ==> Cur().regs[7] == LastResult && IsNumeric(Cur().regs[9])
    {
      hide Gen.Typing, Gen.Guard, Gen.Cur, FlowOn, FlowJump, Words, AfterRequest, FlowCall;
      EmitResultCall(KallsymsLookup);
      EmitLdxBlob(DW, 9, 7, 0);
      EmitMovReg(7, 0);
    }

    method EmitKallsymsArgs(name: int, nameLen: nat, res: int)
      requires Guard() ==> Typing() && Steady(Cur()) && debts == {}
      modifies this`insns, this`notes, this`error
      ensures Guard() ==> old(Guard()) && Typing() && Steady(Cur()) && Same(old(Cur()), Cur(), {1, 2, 3, 4, 7})
      ensures Guard() ==> Cur().regs[1].IsBlob? && IsNumeric(Cur().regs[2]) && IsNumeric(Cur().regs[3])
      ensures Guard() ==> Cur().regs[4] == IsBlob(res) && Cur().regs[7] == IsBlob(res)
    {
      hide Gen.Typing, Gen.Guard, Gen.Cur, FlowOn, FlowJump, Words;
      LoadBlobAddr(1, name);
      EmitMovImm(2, nameLen);
      EmitMovImm(3, 0);
      LoadBlobAddr(4, res);
      EmitMovReg(7, 4);
    }

    /** The symbol for a relocation: the first known one with the same key, with one more use, or a new one.
        Whether a new symbol counts as typeless is left open until it is resolved. */
    method GetKsymDesc(r: Relo) returns (k: int)
      modifies this`ksyms, this`error
      ensures Guard() ==> old(Guard()) && k >= 0
      ensures k >= 0 <==> k != -1
      ensures 0 <= k ==> k <= |old(ksyms)| && k < |ksyms| && KeyOf(ksyms[k]) == ReloKey(r)
      ensures forall j :: 0 <= j < k && j < |old(ksyms)| ==> KeyOf(old(ksyms)[j]) != ReloKey(r)
      ensures 0 <= k < |old(ksyms)| ==> ksyms == old(ksyms)[k := old(ksyms)[k].(ref := old(ksyms)[k].ref + 1)]
      ensures k == |old(ksyms)| ==> ksyms == old(ksyms) + [NewKsym(r, ksyms[k].typeless)]
      ensures k == -1 ==> error == ENOMEM && ksyms == old(ksyms)
    {
      var i := 0;
      while i < |ksyms|
        invariant 0 <= i <= |ksyms| && ksyms == old(ksyms)
        invariant forall j :: 0 <= j < i ==> KeyOf(ksyms[j]) != ReloKey(r)
      {
        if ksyms[i].kind == r.kind && ksyms[i].isLd64 == r.isLd64 && ksyms[i].name == r.name {
          ksyms := ksyms[i := ksyms[i].(ref := ksyms[i].ref + 1)];
          return i;
        }
        i := i + 1;
      }
      var outOfMemory: bool := *;
      if outOfMemory {
        error := ENOMEM;
        return -1;
      }
      var typeless: bool := *;
      ksyms := ksyms + [NewKsym(r, typeless)];
      return |ksyms| - 1;
    }

    /** The symbol for a relocation, and whether it was resolved before. */
    method SymbolFor(r: Relo) returns (k: int, known: bool)
      requires Guard() ==> SymbolsOk(ksyms, nrFdArray)
      modifies this`ksyms, this`error
      ensures k < 0 ==> error != 0
      ensures 0 <= k ==> k < |ksyms| && known == (ksyms[k].ref > 1)
      ensures Guard() ==> old(Guard()) && k >= 0 && Keys(ksyms) == Keys(old(ksyms)) + {ReloKey(r)}
      ensures Guard() ==> NewLookup(r, Keys(old(ksyms))) == if known then [] else [LookupOf(r)]
      ensures Guard() && known ==> SymbolsOk(ksyms, nrFdArray) && IsElsewhere(ksyms[k].insn)
      ensures Guard() && !known ==> k == |old(ksyms)| && ksyms == old(ksyms) + [NewKsym(r, ksyms[k].typeless)]
    {
      hide Gen.Guard, SymbolsOk, Keys, NewLookup;
      ghost var ks := ksyms;
      k := GetKsymDesc(r);
      if k < 0 { return k, false; }
      known := ksyms[k].ref > 1;
      if Guard() {
        FoundKey(ks, ksyms, k, r);
        if known { KnownSymbol(ks, k, nrFdArray, ksyms); } else { NewSymbol(ks, k, nrFdArray); }
      }
    }

    /** Notes which instruction a new symbol of an address load was resolved for. */
    method FileSymbol(k: nat, insn: nat, typeless: bool, ghost ks: seq<Ksym>)
      requires k < |ksyms| && (Guard() ==> SymbolsOk(ks, nrFdArray) && k == |ks| && |ksyms| == k + 1 && ksyms[..k] == ks)
      requires Guard() ==> ksyms[k].isLd64 && ksyms[k].ref == 1 && IsElsewhere(insn)
      modifies this`ksyms
      ensures |ksyms| == old(|ksyms|) && (Guard() ==> SymbolsOk(ksyms, nrFdArray)) && Keys(ksyms) == Keys(old(ksyms))
    {
      hide Gen.Guard, SymbolsOk, Keys;
      var v := ksyms[k].(insn := insn, typeless := ksyms[k].typeless || typeless);
      SameKeys(ksyms, k, v);
      ksyms := ksyms[k := v];
      if Guard() { FiledKsym(ks, k, nrFdArray, ksyms); }
    }

    /** The fd array entry for the BTF of one more function, or a place after the data. */
    method AddKfuncBtfFd() returns (idx: nat)
      requires fdArray == 0
      requires Guard() ==> 0 <= nrFdArray <= MAX_KFUNC_DESCS && dataLen >= 4 * MAX_FD_ARRAY_SZ
      modifies this`nrFdArray, this`dataLen, this`error
      ensures dataLen >= old(dataLen)
      ensures Guard() ==> old(Guard()) && MAX_USED_MAPS <= idx && 0 <= nrFdArray <= MAX_KFUNC_DESCS
      ensures Guard() ==> nrFdArray == old(nrFdArray) + if idx < MAX_FD_ARRAY_SZ then 1 else 0
    {
      if nrFdArray == MAX_KFUNC_DESCS {
        var cur := AddData(4);
        return cur / 4;
      }
      idx := if nrFdArray >= 0 then MAX_USED_MAPS + nrFdArray else 0;
      nrFdArray := nrFdArray + 1;
    }

    /** While a relocation of the instruction at insn is generated: its address is in R8. */
    ghost predicate Relocating(insn: int, owes: Owes)
      reads this
    {
      && Typing() && Steady(Cur()) && debts == {} && stage == Loading && Waiting(Cur(), owes) && Fits(Cur()) && AskedSoFar()
      && Cur().regs[8] == IsBlob(insn) && IsElsewhere(insn) && dataLen >= 4 * MAX_FD_ARRAY_SZ
    }

    /** Stores BTF id and descriptor index of a function into the call instruction, or zeroes. */
    method EmitKfuncStore(insn: int, idx: nat)
      requires Guard() ==> Relocating(insn, Paid) && Cur().regs[7] == LastResult && MAX_USED_MAPS <= idx && fdArray == 0
      modifies this`insns, this`notes, this`error, this`debts
      ensures Guard() ==> old(Guard()) && Relocating(insn, Paid) && Same(old(Cur()), Cur(), {0, 9})
    {
      hide Gen.Typing, Gen.Guard, Gen.Cur, FlowOn, FlowJump, Words, PlacesOk;
      EmitZeroCall(insn);
      ghost var n := Cur();
      EmitStoreId(insn);
      EmitStoreBtfFd(insn, idx);
      Meet({0, 9});
    }

    /** For a negative result: clear both fields and skip the ten instructions for success. */
    method EmitZeroCall(insn: int)
      requires Guard() ==> Relocating(insn, Paid) && Cur().regs[7] == LastResult
      modifies this`insns, this`notes, this`error, this`debts
      ensures Guard() ==> old(Guard()) && Typing() && Steady(Cur()) && Cur() == old(Cur())
      ensures Guard() ==> debts == {Debt(|insns| + 10, Cur())}
    {
      hide Gen.Typing, Gen.Guard, Gen.Cur, FlowOn, FlowJump, Words, PlacesOk;
      ghost var n := Cur();
      if Guard() { CurWell(); }
      EmitTest(Jsge, 7, 0, 3);
      EmitStBlob(W, 8, IMM_FIELD, 0);
      EmitStBlob(H, 8, OFF_FIELD, 0);
      EmitSkip(10);
      LandAt(n);
    }

    /** Stores the BTF id; a descriptor of zero means the kernel's own BTF and skips four instructions. */
    method EmitStoreId(insn: int)
      requires Guard() ==> Typing() && Steady(Cur()) && Cur().regs[7] == LastResult && Cur().regs[8] == IsBlob(insn) && IsElsewhere(insn)
      requires Guard() ==> debts == {Debt(|insns| + 10, Cur())}
      modifies this`insns, this`notes, this`error, this`debts
      ensures Guard() ==> old(Guard()) && Typing() && Steady(Cur()) && Cur() == WithReg(old(Cur()), 9, Number)
      ensures Guard() ==> debts == {Debt(|insns| + 4, old(Cur())), Debt(|insns| + 4, Cur())}
    {
      hide Gen.Typing, Gen.Guard, Gen.Cur, FlowOn, FlowJump, Words, PlacesOk;
      EmitStxBlob(W, 8, 7, IMM_FIELD);
      EmitMovReg(9, 7);
      EmitRsh32(9);
      EmitUnlessKernel();
    }

    method EmitUnlessKernel()
      requires Guard() ==> Typing() && Steady(Cur()) && Cur().regs[9] == Number && DueFrom(debts, |insns| + 7)
      requires Guard() ==> Cur().regs[8].IsBlob? && IsElsewhere(Cur().regs[8].off)
      modifies this`insns, this`notes, this`error, this`debts
      ensures Guard() ==> old(Guard()) && Typing() && Steady(Cur()) && Cur() == old(Cur()) && |insns| == old(|insns|) + 3
      ensures Guard() ==> debts == old(debts) + {Debt(|insns| + 4, Cur())}
    {
      hide Gen.Typing, Gen.Guard, Gen.Cur, FlowOn, FlowJump, Words, PlacesOk;
      ghost var n := Cur();
      if Guard() { CurWell(); }
      EmitTest(Jne, 9, 0, 2);
      EmitStBlob(H, 8, OFF_FIELD, 0);
      EmitSkip(4);
      LandAt(n);
    }

    method EmitStoreBtfFd(insn: int, idx: nat)
      requires Guard() ==> Typing() && Steady(Cur()) && DueFrom(debts, |insns| + 4) && Cur().regs[9] == Number
      requires Guard() ==> Cur().regs[8] == IsBlob(insn) && IsElsewhere(insn) && MAX_USED_MAPS <= idx && fdArray == 0
      modifies this`insns, this`notes, this`error
      ensures Guard() ==> old(Guard()) && Typing() && Steady(Cur()) && Same(old(Cur()), Cur(), {0}) && |insns| == old(|insns|) + 4
    {
      hide Gen.Typing, Gen.Guard, Gen.Cur, FlowOn, FlowJump, Words, PlacesOk;
      LoadBlobAddr(0, fdArray + 4 * idx);
      EmitStxBlob(W, 0, 9, 0);
      EmitStBlob(H, 8, OFF_FIELD, idx);
    }

    /** Copies two fields of an instruction that was relocated before. */
    method EmitCopy(insn: int, size1: Size, field1: nat, size2: Size, field2: nat, from: int)
      requires Guard() ==> Relocating(insn, Paid) && IsElsewhere(from)
      modifies this`insns, this`notes, this`error
      ensures Guard() ==> old(Guard()) && Relocating(insn, Paid) && SamePlaces(old(Cur()), Cur()) && IsNumeric(Cur().regs[0])
    {
      hide Gen.Typing, Gen.Guard, Gen.Cur, FlowOn, FlowJump, Words, PlacesOk;
      MoveBlob2Blob(insn + field1, size1, from + field1);
      MoveBlob2Blob(insn + field2, size2, from + field2);
    }

    /** Looks a symbol up; a symbol that is not weak has to be found. */
    method EmitLookup(insn: int, r: Relo)
      requires Guard() ==> Relocating(insn, Paid)
      modifies this`insns, this`notes, this`error, this`debts, this`dataLen, this`requests
      ensures dataLen >= old(dataLen)
      ensures requests == old(requests) + [Find(r.isWeak)]
      ensures Guard() ==> old(Guard()) && Relocating(insn, Paid) && SamePlaces(old(Cur()), Cur()) && Cur().regs[7] == LastResult
    {
      hide Gen.Typing, Gen.Guard, Gen.Cur, FlowOn, FlowJump, Words, PlacesOk;
      EmitFind(|r.name| + 1, r.kind, r.isWeak);
      if !r.isWeak { EmitCheckErr(); }
    }

    /** Relocates a call of a kernel function. */
    method EmitReloKfunc(r: Relo, insn: nat)
      requires !r.isLd64 && fdArray == 0
      requires Guard() ==> Relocating(insn, Paid) && SymbolsOk(ksyms, nrFdArray)
      modifies this`insns, this`notes, this`error, this`debts, this`dataLen, this`ksyms, this`nrFdArray, this`requests
      ensures dataLen >= old(dataLen)
      ensures Guard() ==> old(Guard()) && Relocating(insn, Paid) && SamePlaces(old(Cur()), Cur()) && SymbolsOk(ksyms, nrFdArray)
      ensures Guard() ==> requests == old(requests) + NewLookup(r, Keys(old(ksyms))) && Keys(ksyms) == Keys(old(ksyms)) + {ReloKey(r)}
    {
      hide Gen.Typing, Gen.Guard, Gen.Cur, FlowOn, FlowJump, Words, PlacesOk;
      hide SymbolsOk, Keys, NewLookup;
      ghost var ks := ksyms;
      var k, known := SymbolFor(r);
      if k < 0 {
        GuardNeedsNoError();
        return;
      }
      if known {
        EmitCopy(insn, W, IMM_FIELD, H, OFF_FIELD, ksyms[k].insn);
      } else {
        ResolveKfunc(r, insn, k, ks);
        if error != 0 {
          GuardNeedsNoError();
          return;
        }
      }
      EmitKfuncLog(insn, ksyms[k].off);
    }

    method ResolveKfunc(r: Relo, insn: nat, k: nat, ghost ks: seq<Ksym>)
      requires !r.isLd64 && fdArray == 0 && k < |ksyms|
      requires Guard() ==> Relocating(insn, Paid) && SymbolsOk(ks, nrFdArray) && k == |ks|
      requires Guard() ==> ksyms == ks + [NewKsym(r, ksyms[k].typeless)]
      modifies this`insns, this`notes, this`error, this`debts, this`dataLen, this`ksyms, this`nrFdArray, this`requests
      ensures dataLen >= old(dataLen) && |ksyms| == old(|ksyms|)
      ensures Guard() ==> old(Guard()) && Relocating(insn, Paid) && SamePlaces(old(Cur()), Cur()) && SymbolsOk(ksyms, nrFdArray)
      ensures requests == old(requests) + [Find(r.isWeak)] && (Guard() ==> Keys(ksyms) == Keys(old(ksyms)))
    {
      hide Gen.Typing, Gen.Guard, Gen.Cur, FlowOn, FlowJump, Words, PlacesOk;
      hide SymbolsOk, Keys;
      SameKeys(ksyms, k, ksyms[k].(insn := insn));
      ksyms := ksyms[k := ksyms[k].(insn := insn)];
      EmitLookup(insn, r);
      var idx := FileKfunc(r, insn, k, ks);
      if error != 0 {
        GuardNeedsNoError();
        return;
      }
      EmitKfuncStore(insn, idx);
    }

    /** Notes the descriptor index of a function, unless it is too large. */
    method FileKfunc(r: Relo, insn: nat, k: nat, ghost ks: seq<Ksym>) returns (idx: nat)
      requires !r.isLd64 && fdArray == 0 && k < |ksyms|
      requires Guard() ==> SymbolsOk(ks, nrFdArray) && k == |ks| && IsElsewhere(insn) && dataLen >= 4 * MAX_FD_ARRAY_SZ
      requires Guard() ==> ksyms == ks + [NewKsym(r, ksyms[k].typeless).(insn := insn)]
      modifies this`error, this`dataLen, this`ksyms, this`nrFdArray
      ensures dataLen >= old(dataLen) && |ksyms| == old(|ksyms|) && (error == 0 ==> idx <= INT16_MAX)
      ensures Guard() ==> old(Guard()) && SymbolsOk(ksyms, nrFdArray) && MAX_USED_MAPS <= idx && Keys(ksyms) == Keys(old(ksyms))
    {
      hide Gen.Guard, Keys, KeyOf;
      ghost var used := nrFdArray;
      if Guard() { CountBounds(ks, used); }
      hide SymbolsOk;
      idx := AddKfuncBtfFd();
      if idx > INT16_MAX {
        error := E2BIG;
        GuardNeedsNoError();
        return;
      }
      if Guard() { FiledKfunc(ks, r, used, nrFdArray, insn, idx, ksyms[k].typeless); }
      KeyKept(ksyms[k], idx);
      SameKeys(ksyms, k, ksyms[k].(off := idx));
      ksyms := ksyms[k := ksyms[k].(off := idx)];
      assert Guard() ==> ksyms == ks + [NewKsym(r, ksyms[k].typeless).(off := idx, insn := insn)];
    }

    /** Prints what a relocated call refers to. */
    method EmitKfuncLog(insn: int, off: nat)
      requires fdArray == 0 && (Guard() ==> Relocating(insn, Paid))
      modifies this`insns, this`notes, this`error, this`debts, this`dataLen
      ensures dataLen >= old(dataLen)
      ensures Guard() ==> old(Guard()) && Relocating(insn, Paid) && SamePlaces(old(Cur()), Cur())
    {
      hide Gen.Typing, Gen.Guard, Gen.Cur, FlowOn, FlowJump, Words, PlacesOk;
      if logLevel == 0 { return; }
      EmitPrintFields(insn, OFF_FIELD);
      EmitPrintSlot(fdArray + 4 * off);
    }

    /** Prints the immediate and a 16-bit field of the relocated instruction. */
    method EmitPrintFields(insn: int, field: nat)
      requires Guard() ==> Typing() && Steady(Cur()) && debts == {} && Cur().regs[8] == IsBlob(insn) && IsElsewhere(insn)
      modifies this`insns, this`notes, this`error, this`dataLen
      ensures dataLen >= old(dataLen)
      ensures Guard() ==> old(Guard()) && Typing() && Steady(Cur()) && Same(old(Cur()), Cur(), {0, 1, 2, 3, 4, 5, 7, 9})
    {
      hide Gen.Typing, Gen.Guard, Gen.Cur, FlowOn, FlowJump, Words, PlacesOk, Pieces, DueFrom;
      NothingDueAtAll();
      EmitLdxBlob(W, 7, 8, IMM_FIELD);
      EmitLdxBlob(H, 9, 8, field);
      DebugRegs(7, 9);
    }

    method EmitPrintSlot(addr: int)
      requires Guard() ==> Typing() && Steady(Cur()) && debts == {} && Readable(W, addr)
      modifies this`insns, this`notes, this`error, this`dataLen
      ensures dataLen >= old(dataLen)
      ensures Guard() ==> old(Guard()) && Typing() && Steady(Cur()) && Same(old(Cur()), Cur(), {0, 1, 2, 3, 4, 5, 9})
    {
      hide Gen.Typing, Gen.Guard, Gen.Cur, FlowOn, FlowJump, Words, PlacesOk;
      LoadBlobAddr(0, addr);
      EmitLdxBlob(W, 9, 0, 0);
      DebugRegs(9, -1);
    }

    /** Prints what a relocated load refers to. */
    method EmitKsymLog(insn: int)
      requires Guard() ==> Relocating(insn, Paid)
      modifies this`insns, this`notes, this`error, this`debts, this`dataLen
      ensures dataLen >= old(dataLen)
      ensures Guard() ==> old(Guard()) && Relocating(insn, Paid) && SamePlaces(old(Cur()), Cur())
    {
      hide Gen.Typing, Gen.Guard, Gen.Cur, FlowOn, FlowJump, Words, PlacesOk;
      if logLevel == 0 { return; }
      EmitPrintFields(insn, INSN_SZ + IMM_FIELD);
      EmitPrintRegs(insn);
    }

    method EmitPrintRegs(insn: int)
      requires Guard() ==> Typing() && Steady(Cur()) && debts == {} && Cur().regs[8] == IsBlob(insn) && IsElsewhere(insn)
      modifies this`insns, this`notes, this`error, this`dataLen
      ensures dataLen >= old(dataLen)
      ensures Guard() ==> old(Guard()) && Typing() && Steady(Cur()) && Same(old(Cur()), Cur(), {0, 1, 2, 3, 4, 5, 9})
    {
      hide Gen.Typing, Gen.Guard, Gen.Cur, FlowOn, FlowJump, Words, PlacesOk, Pieces, DueFrom;
      NothingDueAtAll();
      EmitLdxBlob(B, 9, 8, REGS_FIELD);
      DebugRegs(9, -1);
    }

    /** Relocates a load of the address of a kernel symbol without type. */
    method EmitReloTypeless(r: Relo, insn: nat)
      requires r.isLd64 && r.isTypeless
      requires Guard() ==> Relocating(insn, Paid) && SymbolsOk(ksyms, nrFdArray)
      modifies this`insns, this`notes, this`error, this`debts, this`dataLen, this`ksyms, this`requests
      ensures dataLen >= old(dataLen)
      ensures Guard() ==> old(Guard()) && Relocating(insn, Paid) && SamePlaces(old(Cur()), Cur()) && SymbolsOk(ksyms, nrFdArray)
      ensures Guard() ==> requests == old(requests) + NewLookup(r, Keys(old(ksyms))) && Keys(ksyms) == Keys(old(ksyms)) + {ReloKey(r)}
    {
      hide Gen.Typing, Gen.Guard, Gen.Cur, FlowOn, FlowJump, Words, PlacesOk;
      hide SymbolsOk, Keys, NewLookup;
      ghost var ks := ksyms;
      var k, known := SymbolFor(r);
      if k < 0 {
        GuardNeedsNoError();
        return;
      }
      if known {
        EmitCopy(insn, W, IMM_FIELD, W, INSN_SZ + IMM_FIELD, ksyms[k].insn);
      } else {
        FileSymbol(k, insn, true, ks);
        EmitKallsyms(|r.name| + 1);
        EmitStoreAddress(insn);
      }
      EmitKsymLog(insn);
    }

    /** Stores the address found, or zero for a symbol that does not exist. */
    method EmitStoreAddress(insn: int)
      requires Guard() ==> Relocating(insn, DueUnlessMissing) && Cur().regs[7] == LastResult && IsNumeric(Cur().regs[9])
      modifies this`insns, this`notes, this`error, this`debts
      ensures Guard() ==> old(Guard()) && Relocating(insn, Paid) && Cur().books == old(Cur()).books.(owes := Paid)
    {
      hide Gen.Typing, Gen.Guard, Gen.Cur, FlowOn, FlowJump, Words, PlacesOk;
      EmitUnlessMissing(insn);
      EmitStxBlob(W, 8, 9, IMM_FIELD);
      EmitRsh32(9);
      EmitStxBlob(W, 8, 9, INSN_SZ + IMM_FIELD);
    }

    /** Skips the next instruction when the symbol does not exist. */
    method EmitTestMissing()
      requires Guard() ==> Typing() && Steady(Cur()) && DueFrom(debts, |insns| + 1) && Cur().regs[7] == LastResult && Cur().books.owes == DueUnlessMissing
      modifies this`insns, this`notes, this`error, this`debts
      ensures Guard() ==> old(Guard()) && Typing() && Steady(Cur()) && insns == old(insns) + [Jmp(Jeq, 7, ENOENT, 1)]
      ensures Guard() ==> Cur() == old(Cur()).(books := old(Cur()).books.(owes := Due)) && debts == old(debts) + {Debt(|insns| + 1, Checked(old(Cur())))}
    {
      hide Gen.Typing, Gen.Guard, Gen.Cur;
      EmitJump(Jmp(Jeq, 7, ENOENT, 1));
    }

    /** A symbol that does not exist is no error. */
    method EmitUnlessMissing(insn: int)
      requires Guard() ==> Relocating(insn, DueUnlessMissing) && Cur().regs[7] == LastResult
      modifies this`insns, this`notes, this`error, this`debts
      ensures Guard() ==> old(Guard()) && Relocating(insn, Paid) && Same(Checked(old(Cur())), Cur(), {})
    {
      hide Gen.Typing, Gen.Guard, Gen.Cur, FlowOn, FlowJump, Words, PlacesOk;
      EmitTestMissing();
      EmitCheckErr();
      Meet({});
    }

    /** Relocates a load of a typed kernel symbol. */
    method EmitReloKsymBtf(r: Relo, insn: nat)
      requires r.isLd64 && !r.isTypeless
      requires Guard() ==> Relocating(insn, Paid) && SymbolsOk(ksyms, nrFdArray)
      modifies this`insns, this`notes, this`error, this`debts, this`dataLen, this`ksyms, this`requests
      ensures dataLen >= old(dataLen)
      ensures Guard() ==> old(Guard()) && Relocating(insn, Paid) && SamePlaces(old(Cur()), Cur()) && SymbolsOk(ksyms, nrFdArray)
      ensures Guard() ==> requests == old(requests) + NewLookup(r, Keys(old(ksyms))) && Keys(ksyms) == Keys(old(ksyms)) + {ReloKey(r)}
    {
      hide Gen.Typing, Gen.Guard, Gen.Cur, FlowOn, FlowJump, Words, PlacesOk;
      hide SymbolsOk, Keys, NewLookup;
      ghost var ks := ksyms;
      var k, known := SymbolFor(r);
      if k < 0 {
        GuardNeedsNoError();
        return;
      }
      if known {
        EmitCopy(insn, W, INSN_SZ + IMM_FIELD, W, IMM_FIELD, ksyms[k].insn);
        EmitTest(Jne, 0, 0, 3);
      } else {
        FileSymbol(k, insn, false, ks);
        EmitLookupIds(insn, r);
      }
      EmitClearSrcReg(insn);
      EmitKsymLog(insn);
    }

    method EmitLookupIds(insn: int, r: Relo)
      requires Guard() ==> Relocating(insn, Paid)
      modifies this`insns, this`notes, this`error, this`debts, this`dataLen, this`requests
      ensures dataLen >= old(dataLen)
      ensures Guard() ==> old(Guard()) && Clearing(insn) && SamePlaces(old(Cur()), Cur())
      ensures requests == old(requests) + [Find(r.isWeak)]
    {
      hide Gen.Typing, Gen.Guard, Gen.Cur, FlowOn, FlowJump, Words, PlacesOk;
      EmitLookup(insn, r);
      EmitStoreIds(insn);
    }

    /** Stores BTF id and descriptor of a symbol, or zeroes; success skips the three instructions that
        follow. */
    method EmitStoreIds(insn: int)
      requires Guard() ==> Relocating(insn, Paid) && Cur().regs[7] == LastResult
      modifies this`insns, this`notes, this`error, this`debts
      ensures Guard() ==> old(Guard()) && Clearing(insn) && SamePlaces(old(Cur()), Cur())
    {
      hide Gen.Typing, Gen.Guard, Gen.Cur, FlowOn, FlowJump, Words, PlacesOk, FitsIn;
      ghost var n := Cur();
      EmitZeroLoad(insn);
      EmitStoreBoth(insn);
      EmitSkip(3);
      LandAt(n);
    }

    /** Stores BTF id and descriptor. */
    method EmitStoreBoth(insn: int)
      requires Guard() ==> Typing() && Steady(Cur()) && DueFrom(debts, |insns| + 3) && Cur().regs[7] == LastResult
      requires Guard() ==> Cur().regs[8] == IsBlob(insn) && IsElsewhere(insn)
      modifies this`insns, this`notes, this`error
      ensures Guard() ==> old(Guard()) && Typing() && Steady(Cur()) && |insns| == old(|insns|) + 3 && Cur() == WithReg(old(Cur()), 7, Number)
    {
      hide Gen.Typing, Gen.Guard, Gen.Cur, FlowOn, FlowJump;
      EmitStxBlob(W, 8, 7, IMM_FIELD);
      EmitRsh32(7);
      EmitStxBlob(W, 8, 7, INSN_SZ + IMM_FIELD);
    }

    /** For a negative result: clear both fields and skip the four instructions for success. */
    method EmitZeroLoad(insn: int)
      requires Guard() ==> Relocating(insn, Paid) && Cur().regs[7] == LastResult
      modifies this`insns, this`notes, this`error, this`debts
      ensures Guard() ==> old(Guard()) && Typing() && Steady(Cur()) && Cur() == old(Cur()) && WellNote(Cur())
      ensures Guard() ==> debts == {Debt(|insns| + 4, Cur())}
    {
      hide Gen.Typing, Gen.Guard, Gen.Cur, FlowOn, FlowJump, Words, PlacesOk;
      ghost var n := Cur();
      if Guard() { CurWell(); }
      EmitTest(Jsge, 7, 0, 3);
      EmitStBlob(W, 8, IMM_FIELD, 0);
      EmitStBlob(W, 8, INSN_SZ + IMM_FIELD, 0);
      EmitSkip(4);
      LandAt(n);
    }

    /** Before the source register is cleared: some path skips the next three instructions. */
    ghost predicate Clearing(insn: int)
      reads this
    {
      && Typing() && Steady(Cur()) && stage == Loading && Waiting(Cur(), Paid) && Fits(Cur()) && AskedSoFar()
      && Cur().regs[8] == IsBlob(insn) && IsElsewhere(insn) && dataLen >= 4 * MAX_FD_ARRAY_SZ
      && DueFrom(debts, |insns| + 3) && (forall d :: d in debts ==> d.target == |insns| + 3 && Same(Cur(), d.note, {7}))
    }

    /** Clears the source register field of the relocated load. */
    method EmitClearSrcReg(insn: int)
      requires Guard() ==> Clearing(insn)
      modifies this`insns, this`notes, this`error, this`debts
      ensures Guard() ==> old(Guard()) && Relocating(insn, Paid) && SamePlaces(old(Cur()), Cur())
    {
      hide Gen.Typing, Gen.Guard, Gen.Cur, FlowOn, FlowJump, Words, PlacesOk;
      EmitLdxBlob(B, 9, 8, REGS_FIELD);
      EmitAnd32(9, 0x0f);
      EmitStxBlob(B, 8, 9, REGS_FIELD);
      Meet({7, 9});
    }

    method EmitAnd32(d: nat, mask: int)
      requires Guard() ==> Typing() && Steady(Cur()) && DueFrom(debts, |insns| + 1) && d < 10 && d != 6 && IsNumeric(Cur().regs[d])
      modifies this`insns, this`notes, this`error
      ensures Guard() ==> old(Guard()) && Typing() && Steady(Cur()) && insns == old(insns) + [And32(d, mask)]
      ensures Guard() ==> Cur() == WithReg(old(Cur()), d, Number)
    {
      hide Gen.Typing, Gen.Guard, Gen.Cur;
      Emit(And32(d, mask));
    }

    /** What holds around relocations. */
    ghost predicate Between()
      reads this
    {
      && Typing() && Steady(Cur()) && debts == {} && stage == Loading && Waiting(Cur(), Paid) && Fits(Cur()) && AskedSoFar()
      && dataLen >= 4 * MAX_FD_ARRAY_SZ && SymbolsOk(ksyms, nrFdArray)
    }

    method EmitRelo(r: Relo, insnsOff: nat)
      requires fdArray == 0 && (Guard() ==> Between() && IsElsewhere(insnsOff))
      modifies this`insns, this`notes, this`error, this`debts, this`dataLen, this`ksyms, this`nrFdArray, this`requests
      ensures dataLen >= old(dataLen)
      ensures Guard() ==> old(Guard()) && Between() && SamePlaces(old(Cur()), Cur())
      ensures Guard() ==> requests == old(requests) + NewLookup(r, Keys(old(ksyms))) && Keys(ksyms) == Keys(old(ksyms)) + {ReloKey(r)}
    {
      hide Gen.Typing, Gen.Guard, Gen.Cur, FlowOn, FlowJump, Words, PlacesOk;
      hide SymbolsOk;
      var insn := insnsOff + INSN_SZ * r.insnIdx;
      LoadBlobAddr(8, insn);
      if !r.isLd64 {
        EmitReloKfunc(r, insn);
      } else if r.isTypeless {
        EmitReloTypeless(r, insn);
      } else {
        EmitReloKsymBtf(r, insn);
      }
    }

    method EmitRelos(insnsOff: nat)
      requires fdArray == 0 && (Guard() ==> Between() && IsElsewhere(insnsOff))
      modifies this`insns, this`notes, this`error, this`debts, this`dataLen, this`ksyms, this`nrFdArray, this`requests
      ensures dataLen >= old(dataLen)
      ensures Guard() ==> old(Guard()) && Between() && SamePlaces(old(Cur()), Cur())
      ensures Guard() && old(ksyms) == [] ==> requests == old(requests) + Lookups(relos)
    {
      hide Gen.Typing, Gen.Guard, Gen.Cur, FlowOn, FlowJump, Words, PlacesOk;
      hide SymbolsOk, NewLookup, Lookups, ReloKeys, Keys;
      NoLookups(relos);
      var i := 0;
      while i < |relos|
        invariant 0 <= i <= |relos| && dataLen >= old(dataLen)
        invariant Guard() ==> old(Guard()) && Between() && SamePlaces(old(Cur()), Cur())
        invariant Guard() && old(ksyms) == [] ==> requests == old(requests) + Lookups(relos[..i]) && Keys(ksyms) == ReloKeys(relos[..i])
      {
        EmitRelo(relos[i], insnsOff);
        LookupsMore(relos, i);
        i := i + 1;
      }
      assert relos[..i] == relos;
    }

    /** While a program has just been loaded, or not: its descriptor is still only in R7. */
    ghost predicate JustLoaded(owes: Owes)
      reads this`insns, this`notes, this`debts, this`stage, this`cleanupLabel, this`cleanupEnd, this`initProgs, this`initMaps
      reads this`dataLen, this`requests
    {
      && Typing() && Steady(Cur()) && debts == {} && stage == Loading && Fits(Cur()) && !Cur().books.neg && Cur().books.owes == owes && AskedSoFar()
      && dataLen >= 4 * MAX_FD_ARRAY_SZ && Cur().regs[7] == LastResult
    }

    /** Closes the descriptors that relocations opened and forgets the relocations. */
    method CleanupRelos()
      requires fdArray == 0 && (Guard() ==> JustLoaded(Due) && SymbolsOk(ksyms, nrFdArray))
      modifies this`insns, this`notes, this`error, this`debts, this`dataLen, this`ksyms, this`nrFdArray, this`relos, this`coreReloCnt
      ensures dataLen >= old(dataLen)
      ensures Guard() ==> old(Guard()) && JustLoaded(Due) && FewerPlaces(old(Cur()), Cur()) && ksyms == [] && nrFdArray == 0
      ensures Guard() ==> forall j :: 0 <= j < |old(ksyms)| && HoldsFd(old(ksyms)[j]) ==> ClosedAfter(insns, |old(insns)|, FdPlace(old(ksyms)[j]))
      ensures relos == [] && coreReloCnt == 0
    {
      hide Gen.Typing, Gen.Guard, Gen.Cur, FlowOn, FlowJump, Words, PlacesOk;
      hide FdArrayUse, UsesFdArray, ClosedAfter, HoldsFd, FdPlace;
      assert Guard() ==> FewerPlaces(Cur(), Cur());
      hide Gen.JustLoaded;
      var i := 0;
      while i < |ksyms|
        invariant 0 <= i <= |ksyms| && ksyms == old(ksyms) && dataLen >= old(dataLen)
        invariant Guard() ==> old(Guard()) && JustLoaded(Due) && FewerPlaces(old(Cur()), Cur())
        invariant Guard() ==> KsymsOk(ksyms) && nrFdArray == FdArrayUse(ksyms[i..])
        invariant Guard() ==> AllClosed(ksyms, i, insns, |old(insns)|) && old(insns) <= insns
      {
        ghost var p := insns;
        FdArrayUseFront(ksyms, i);
        CleanupKsym(ksyms[i]);
        if Guard() { OneMoreClosed(ksyms, i, p, insns, |old(insns)|); }
        i := i + 1;
      }
      NoFdArrayUse(ksyms[i..]);
      ForgetRelos();
    }

    method ForgetRelos()
      modifies this`ksyms, this`relos, this`coreReloCnt
      ensures ksyms == [] && relos == [] && coreReloCnt == 0 && (old(JustLoaded(Due)) ==> JustLoaded(Due))
    {
      hide Gen.Typing, Gen.Cur, Words;
      ksyms, relos, coreReloCnt := [], [], 0;
    }

    lemma FewerRefl()
      requires JustLoaded(Due)
      ensures FewerPlaces(Cur(), Cur())
    {
      hide Gen.Typing, Gen.Cur;
    }

    method CleanupKsym(k: Ksym)
      requires fdArray == 0 && (Guard() ==> JustLoaded(Due) && IsElsewhere(k.insn))
      modifies this`insns, this`notes, this`error, this`debts, this`dataLen, this`nrFdArray
      ensures dataLen >= old(dataLen)
      ensures Guard() ==> old(Guard()) && JustLoaded(Due) && FewerPlaces(old(Cur()), Cur())
      ensures nrFdArray == old(nrFdArray) - if UsesFdArray(k) then 1 else 0
      ensures Guard() ==> old(insns) <= insns && (HoldsFd(k) ==> ClosedAfter(insns, |old(insns)|, FdPlace(k)))
    {
      hide Gen.Typing, Gen.Guard, Gen.Cur, FlowOn, FlowJump, Words, PlacesOk, ClosedAfter, Gen.JustLoaded, Narrowed;
      if Guard() { FewerRefl(); }
      if k.isLd64 && !k.typeless {
        CloseLoaded(k.insn + INSN_SZ + IMM_FIELD);
      } else if !k.isLd64 {
        CloseLoaded(fdArray + 4 * k.off);
        if k.off < MAX_FD_ARRAY_SZ { nrFdArray := nrFdArray - 1; }
      }
    }

    // ----- Programs -------------------------------------------------------------------------------

    /** Generates the loading of one more program: the lookup of its attach target, those of the symbols it
        needs, and the load. */
    method ProgLoad(licenseLen: nat, insnCnt: nat, funcInfoLen: nat, lineInfoLen: nat)
      requires Ready()
      modifies this`insns, this`notes, this`error, this`debts, this`dataLen, this`ksyms, this`nrFdArray, this`relos, this`coreReloCnt
      modifies this`attachKind, this`nrProgs, this`requests, this`progCalls
      ensures Ready() && nrProgs == old(nrProgs) + 1
      ensures Guard() ==> requests == old(requests) + ProgRequests(old(attachKind), old(relos)) && progCalls == old(progCalls) + [|requests| - 1]
    {
      hide Gen.Typing, Gen.Guard, Gen.Cur, FlowOn, FlowJump, Words, PlacesOk;
      hide HeldProgs, HeldMaps, CallsOf;
      ghost var n0, rs := Cur(), requests;
      if Guard() { Settle(); }
      EmitProg(licenseLen, insnCnt, funcInfoLen, lineInfoLen);
      if Guard() {
        PlacesKept(n0, Cur(), nrProgs, nrMaps, btfLoaded, innerOpen);
        OneMoreCall(rs, requests, progCalls, PROG_LOAD);
        CallsMore(rs, requests, mapCalls, MAP_CREATE);
      }
      RecordProg();
    }

    method EmitProg(licenseLen: nat, insnCnt: nat, funcInfoLen: nat, lineInfoLen: nat)
      requires fdArray == 0 && (Guard() ==> Between() && ksyms == [])
      modifies this`insns, this`notes, this`error, this`debts, this`dataLen, this`ksyms, this`nrFdArray, this`relos, this`coreReloCnt
      modifies this`attachKind, this`requests
      ensures dataLen >= old(dataLen)
      ensures Guard() ==> old(Guard()) && JustLoaded(Paid) && ksyms == [] && nrFdArray == 0 && Cur().books.pend
      ensures Guard() ==> Narrowed(old(Cur()).books, Cur().books)
      ensures Guard() ==> requests == old(requests) + ProgRequests(old(attachKind), old(relos))
      ensures requests != [] && requests[|requests| - 1] == Bpf(PROG_LOAD)
    {
      hide Gen.JustLoaded;
      hide Gen.Typing, Gen.Guard, Gen.Cur, FlowOn, FlowJump, Words, PlacesOk;
      hide SymbolsOk, Lookups, ProgRequests;
      ghost var attach, rs := attachKind, relos;
      var code, attr := EmitProgData(licenseLen, insnCnt, funcInfoLen, lineInfoLen);
      EmitRelos(code);
      EmitProgCommand(attr);
      RequestsJoin(old(requests), attach, rs);
    }

    /** Everything before the relocations: the program's data, its attributes and its attach target. */
    method EmitProgData(licenseLen: nat, insnCnt: nat, funcInfoLen: nat, lineInfoLen: nat) returns (code: nat, attr: nat)
      requires fdArray == 0 && (Guard() ==> Between() && ksyms == [])
      modifies this`insns, this`notes, this`error, this`debts, this`dataLen, this`requests
      ensures dataLen >= old(dataLen)
      ensures Guard() ==> old(Guard()) && Between() && SamePlaces(old(Cur()), Cur()) && IsElsewhere(code) && IsElsewhere(attr)
      ensures requests == old(requests) + if attachKind != 0 then [Find(false)] else []
    {
      hide Gen.Typing, Gen.Guard, Gen.Cur, FlowOn, FlowJump, Words, PlacesOk, ProgAttrCode, TooLong, IsRounded;
      hide SymbolsOk;
      var license := AddData(licenseLen + 1);
      code := AddData(INSN_SZ * insnCnt);
      var funcInfo := AddData(funcInfoLen);
      var lineInfo := AddData(lineInfoLen);
      var coreRelos := AddData(16 * coreReloCnt);
      attr := AddData(140);
      EmitProgAttr(attr, license, code, funcInfo, lineInfo, coreRelos);
      if attachKind != 0 { EmitAttachTarget(attr); }
    }

    /** Everything that may be open is where the cleanup block looks. */
    lemma Settle()
      requires Ready() && Guard()
      ensures Between() && SamePlaces(Cur(), Cur()) && ksyms == []
    {
      hide Gen.Typing, Gen.Cur;
      PlacesFit(Cur(), nrProgs, nrMaps, btfLoaded, innerOpen, initProgs, initMaps);
      hide Words, PlacesOk;
    }

    /** Fills the attributes of a program. */
    method EmitProgAttr(attr: int, license: nat, code: nat, funcInfo: nat, lineInfo: nat, coreRelos: nat)
      requires Guard() ==> Between() && IsElsewhere(attr)
      modifies this`insns, this`notes, this`error, this`debts
      ensures Guard() ==> old(Guard()) && Between() && SamePlaces(old(Cur()), Cur())
      ensures Guard() ==> insns == old(insns) + ProgAttrCode(attr, license, code, funcInfo, lineInfo, coreRelos, fdArray)
    {
      hide Gen.Typing, Gen.Guard, Gen.Cur, FlowOn, FlowJump, Words, PlacesOk, PointerCode, LogCode, StackCode;
      hide SymbolsOk;
      EmitProgPointers(attr, license, code, funcInfo);
      EmitMorePointers(attr, lineInfo, coreRelos);
      EmitLogSettings(attr + 24, attr + 28, attr + 32);
      MoveStack2Blob(attr + 72, BTF_FD);
    }

    method EmitProgPointers(attr: int, license: nat, code: nat, funcInfo: nat)
      requires Guard() ==> Typing() && Steady(Cur()) && debts == {} && IsElsewhere(attr)
      modifies this`insns, this`notes, this`error
      ensures Guard() ==> old(Guard()) && Typing() && Steady(Cur()) && Same(old(Cur()), Cur(), {0, 1})
      ensures Guard() ==> insns == old(insns) + PointerCode(attr + 16, license) + PointerCode(attr + 8, code) + PointerCode(attr + 80, funcInfo)
    {
      hide Gen.Typing, Gen.Guard, Gen.Cur, FlowOn, FlowJump, Words, PlacesOk, PointerCode;
      EmitRelStore(attr + 16, license);
      EmitRelStore(attr + 8, code);
      EmitRelStore(attr + 80, funcInfo);
    }

    method EmitMorePointers(attr: int, lineInfo: nat, coreRelos: nat)
      requires Guard() ==> Typing() && Steady(Cur()) && debts == {} && IsElsewhere(attr)
      modifies this`insns, this`notes, this`error
      ensures Guard() ==> old(Guard()) && Typing() && Steady(Cur()) && Same(old(Cur()), Cur(), {0, 1})
      ensures Guard() ==> insns == old(insns) + PointerCode(attr + 96, lineInfo) + PointerCode(attr + 128, coreRelos) + PointerCode(attr + 120, fdArray)
    {
      hide Gen.Typing, Gen.Guard, Gen.Cur, FlowOn, FlowJump, Words, PlacesOk, PointerCode;
      EmitRelStore(attr + 96, lineInfo);
      EmitRelStore(attr + 128, coreRelos);
      EmitRelStore(attr + 120, fdArray);
    }

    /** Looks up the attach target and stores its id and descriptor in the attributes. */
    method EmitAttachTarget(attr: int)
      requires Guard() ==> Between() && IsElsewhere(attr)
      modifies this`insns, this`notes, this`error, this`debts, this`dataLen, this`requests
      ensures dataLen >= old(dataLen)
      ensures Guard() ==> old(Guard()) && Between() && SamePlaces(old(Cur()), Cur())
      ensures requests == old(requests) + [Find(false)]
    {
      hide Gen.Typing, Gen.Guard, Gen.Cur, FlowOn, FlowJump, Words, PlacesOk;
      hide SymbolsOk;
      EmitFind(attachLen + 1, attachKind, false);
      EmitCheckErr();
      EmitStoreTarget(attr);
    }

    method EmitStoreTarget(attr: int)
      requires Guard() ==> Typing() && Steady(Cur()) && debts == {} && IsElsewhere(attr) && Cur().regs[7] == LastResult
      modifies this`insns, this`notes, this`error
      ensures Guard() ==> old(Guard()) && Typing() && Steady(Cur()) && Same(old(Cur()), Cur(), {0, 7})
      ensures Guard() ==> insns == old(insns) + [LoadBlob(0, attr), LoadBlobHi, Stx(W, 0, 7, 108), Rsh(7, 32), Stx(W, 0, 7, 112)]
    {
      hide Gen.Typing, Gen.Guard, Gen.Cur, FlowOn, FlowJump, Words, PlacesOk;
      LoadBlobAddr(0, attr);
      EmitStxBlob(W, 0, 7, 108);
      EmitRsh32(7);
      EmitStxBlob(W, 0, 7, 112);
    }

    method EmitLoadCommand(attr: int)
      requires Guard() ==> Between() && IsElsewhere(attr)
      modifies this`insns, this`notes, this`error, this`dataLen, this`requests
      ensures dataLen >= old(dataLen)
      ensures Guard() ==> old(Guard()) && JustLoaded(Due) && SymbolsOk(ksyms, nrFdArray) && Cur().books.pend
      ensures Guard() ==> Narrowed(old(Cur()).books, Cur().books)
      ensures requests == old(requests) + [Bpf(PROG_LOAD)]
      ensures Guard() ==> old(insns) + AskCode(PROG_LOAD, attr, 140) <= insns
    {
      hide Gen.Typing, Gen.Guard, Gen.Cur, FlowOn, FlowJump, Words, PlacesOk, SymbolsOk, AskCode;
      EmitSysBpf(PROG_LOAD, attr, 140);
      DebugRegs(7, -1);
    }

    /** Issues the command, closes what relocations opened whether it failed or not, then checks. */
    method EmitProgCommand(attr: int)
      requires fdArray == 0 && (Guard() ==> Between() && IsElsewhere(attr))
      modifies this`insns, this`notes, this`error, this`debts, this`dataLen, this`ksyms, this`nrFdArray, this`relos, this`coreReloCnt
      modifies this`attachKind, this`requests
      ensures dataLen >= old(dataLen)
      ensures Guard() ==> old(Guard()) && JustLoaded(Paid) && ksyms == [] && nrFdArray == 0 && Cur().books.pend
      ensures Guard() ==> Narrowed(old(Cur()).books, Cur().books)
      ensures requests == old(requests) + [Bpf(PROG_LOAD)]
    {
      hide Gen.Typing, Gen.Guard, Gen.Cur, FlowOn, FlowJump, Words, PlacesOk;
      hide SymbolsOk;
      hide Narrowed, Gen.JustLoaded, Gen.Between;
      if Guard() { BetweenFacts(); }
      EmitLoadCommand(attr);
      ghost var n1 := Cur();
      CleanupRelos();
      ghost var n2 := Cur();
      if attachKind != 0 {
        CloseLoaded(attr + 112);
        attachKind := 0;
      } else if Guard() {
        NarrowedRefl(Cur().books);
      }
      if Guard() { NarrowedAll(old(Cur()).books, n1.books, n2.books, Cur().books); }
      CheckLoaded();
    }

    lemma BetweenFacts()
      requires Between()
      ensures Cur().Note? && dataLen >= 4 * MAX_FD_ARRAY_SZ
    {
      hide Gen.Typing;
    }

    /** Leaves for the cleanup block if the load failed. */
    method CheckLoaded()
      requires Guard() ==> JustLoaded(Due)
      modifies this`insns, this`notes, this`error, this`debts
      ensures Guard() ==> old(Guard()) && JustLoaded(Paid) && Cur().books == old(Cur()).books.(owes := Paid)
    {
      hide Gen.Typing, Gen.Guard, Gen.Cur, FlowOn, FlowJump, Words;
      EmitCheckErr();
    }

    /** Closes a descriptor in the data while a program has just been loaded. */
    method CloseLoaded(addr: int)
      requires Guard() ==> JustLoaded(Due) && Readable(W, addr)
      modifies this`insns, this`notes, this`error, this`debts, this`dataLen
      ensures dataLen >= old(dataLen)
      ensures Guard() ==> old(Guard()) && JustLoaded(Due) && FewerPlaces(old(Cur()), Cur())
      ensures Guard() ==> old(insns) <= insns && ClosedAfter(insns, |old(insns)|, addr)
    {
      hide Gen.Typing, Gen.Guard, Gen.Cur, FlowOn, FlowJump, Words, PlacesOk, ClosesPlace, FitsIn;
      ghost var n := Cur();
      EmitCloseBlob(addr);
      if Guard() { FitsFreed(n, addr, initProgs, initMaps); }
    }

    /** Remembers the program's descriptor.  A program beyond those announced makes Finish fail. */
    method RecordProg()
      requires nrMaps <= MAX_USED_MAPS && requests != []
      requires Guard() ==> JustLoaded(Paid) && PlacesOk(Cur(), nrProgs, nrMaps, btfLoaded, innerOpen) && Cur().books.pend
      requires Guard() ==> HeldProgs(Cur().books.held, progCalls) && HeldMaps(Cur().books.held, mapCalls)
      requires Guard() ==> |progCalls| == nrProgs && |mapCalls| == nrMaps
      modifies this`insns, this`notes, this`error, this`nrProgs, this`progCalls
      ensures nrProgs == old(nrProgs) + 1 && progCalls == old(progCalls) + [|requests| - 1]
      ensures Guard() ==> old(Guard()) && Typing() && Steady(Cur()) && Settled(Cur().books)
      ensures Guard() ==> PlacesOk(Cur(), nrProgs, nrMaps, btfLoaded, innerOpen) && AskedSoFar()
      ensures Guard() ==> HeldProgs(Cur().books.held, progCalls) && HeldMaps(Cur().books.held, mapCalls)
    {
      hide Gen.Typing, Gen.Cur, FlowOn, FlowJump, Words, PlacesOk, Skippable, HeldProgs, HeldMaps;
      ghost var n, i, calls := Cur(), nrProgs, progCalls;
      var off := ProgFd(nrProgs);
      ProgOffset(nrProgs);
      nrProgs := nrProgs + 1;
      progCalls := progCalls + [|requests| - 1];
      if Guard() {
        GuardMeans();
        ProgFree(n, i, nrMaps, btfLoaded, innerOpen);
      }
      EmitStoreStack(off);
      if Guard() {
        PlacesProg(n, Cur(), i, nrMaps, btfLoaded, innerOpen);
        HeldProg(n.books, requests, calls, mapCalls);
      }
    }
  }

  lemma LabelInRange(p: seq<Insn>, notes: seq<Note>, cleanup: nat, end: nat, progs: nat, maps: nat)
    requires CleanupNoted(p, notes, cleanup, end, progs, maps)
    ensures cleanup < |p|
  {
  }

  lemma CheckLands(p: seq<Insn>, notes: seq<Note>, cleanup: nat, end: nat, progs: nat, maps: nat, n: Note, off: int)
    requires CleanupNoted(p, notes, cleanup, end, progs, maps) && Steady(n) && n.regs[7] == LastResult && FitsIn(n.books, progs, maps)
    ensures cleanup < |p| && cleanup < |notes| && Weaker(FlowJump(Jmp(Jslt, 7, 0, off), n), notes[cleanup])
  {
    LayoutEnd(p, cleanup, end);
    hide Layout;
  }

  /** The note from which commands start. */
  const READY := Note(false, [Number, Unknown, Unknown, Unknown, Unknown, Unknown, IsCtx, Unknown, Unknown, Unknown, IsStack(0)], EMPTY)

  /** How every loader starts: it saves the context pointer and clears the stack. */
  const PROLOG: seq<Insn> := [MovReg(6, 1), MovReg(1, 10), AddImm(1, -STACK_SZ), MovImm(2, STACK_SZ), MovImm(3, 0), Call(ProbeReadKernel)]

  lemma StartTyped()
    ensures Typed([], [START], {}) && WellNote(START)
  {
  }

  lemma BpfFlow(n: Note, cmd: int)
    requires n.Note? && |n.regs| == NR_REGS && n.regs[1] == Const(cmd) && BufferType(n.regs[2]) && IsNumeric(n.regs[3]) && Settled(n.books)
    ensures FlowCall(n, SysBpf).To? && Requested(n, SysBpf) == Bpf(cmd)
  {
  }

  lemma LoadWordFlow(n: Note, off: int)
    requires Steady(n) && off % 4 == 0
    ensures FlowOn(Ldx(W, 1, 10, off), n) == To(WordLoaded(n, 1, off))
  {
  }

  lemma PrologFlow()
    ensures var n1 := WithReg(START, 6, IsCtx);
            var n2 := WithReg(n1, 1, IsStack(0));
            var n3 := WithReg(n2, 1, IsStack(-STACK_SZ));
            var n4 := WithReg(n3, 2, Const(STACK_SZ));
            var n5 := WithReg(n4, 3, Const(0));
            && FlowOn(MovReg(6, 1), START) == To(n1) && FlowOn(MovReg(1, 10), n1) == To(n2)
            && FlowOn(AddImm(1, -STACK_SZ), n2) == To(n3) && FlowOn(MovImm(2, STACK_SZ), n3) == To(n4)
            && FlowOn(MovImm(3, 0), n4) == To(n5) && FlowOn(Call(ProbeReadKernel), n5) == To(READY)
  {
  }

  lemma WordsStep(lo: nat, hi: nat)
    requires lo < hi
    ensures Words(lo, hi) - {lo} == Words(lo + 1, hi)
  {
    forall i ensures i in Words(lo, hi) - {lo} <==> i in Words(lo + 1, hi) { }
  }

  lemma WordsEmpty(lo: nat)
    ensures Words(lo, lo) == {}
  {
  }

  /** Closing word i moves the cleanup note on. */
  lemma CleanWord(n: Note, i: nat, words: nat, maps: nat, off: int, m: Note)
    requires i < words && n == CleanNote(i, words, 0, maps) && IsFrameOffset(i, off)
    requires Same(Freed(WordLoaded(n, 1, off)), m, {0, 1, 2, 3, 4, 5})
    ensures Blurred(m, {0, 1, 2, 3, 4, 5}) == CleanNote(i + 1, words, 0, maps)
  {
    FrameStep(i, words);
    var b := n.books;
    assert m.books == CleanNote(i + 1, words, 0, maps).books by {
      hide InFrame;
      if i < STACK_WORDS { assert WordLoaded(n, 1, off).regs[1] == StackValue(i); }
    }
    assert Blurred(m, {0, 1, 2, 3, 4, 5}).regs == CleanNote(i + 1, words, 0, maps).regs;
  }

  lemma FrameStep(i: nat, words: nat)
    requires i < words
    ensures InFrame(i, words) - {i} == InFrame(i + 1, words)
    ensures i >= STACK_WORDS ==> InFrame(i, words) == {} == InFrame(i + 1, words)
  {
    if i < STACK_WORDS { WordsStep(i, if words <= STACK_WORDS then words else STACK_WORDS); }
  }

  /** The offset of stack word i: words beyond the last one are outside the stack. */
  predicate IsFrameOffset(i: nat, off: int) {
    off % 4 == 0 && (i < STACK_WORDS <==> IsStackWord(W, off)) && (i < STACK_WORDS ==> StackWord(off) == i)
  }

  /** Offsets wrap around, but not so far as to come back into the stack for as many words as a cleanup
      block may close. */
  lemma WordOffset(i: nat)
    ensures Signed16(-STACK_SZ + 4 * i) % 4 == 0
    ensures i <= MAX_SKIPPABLE_PROGS + 1 ==> IsFrameOffset(i, Signed16(-STACK_SZ + 4 * i))
  {
    var v := -STACK_SZ + 4 * i;
    var q := v / 0x1_0000;
    assert v % 0x1_0000 == v - q * 0x1_0000;
  }

  lemma ProgOffset(i: nat)
    ensures ProgFd(i) % 4 == 0 && (i < MAX_SKIPPABLE_PROGS ==> IsFrameOffset(2 + i, ProgFd(i)))
  {
    WordOffset(2 + i);
    assert -STACK_SZ + 8 + 4 * i == -STACK_SZ + 4 * (2 + i);
  }

  lemma CleanNoteSteady(i: nat, words: nat, maps: nat)
    ensures Steady(CleanNote(i, words, 0, maps))
  {
  }

  lemma WordLoadedNumeric(n: Note, off: int)
    requires Steady(n)
    ensures Steady(WordLoaded(n, 1, off)) && IsNumeric(WordLoaded(n, 1, off).regs[1])
  {
  }

  /** Instructions in the cleanup block: three for each stack word, those for each map slot, and two to
      return. */
  function CleanupLen(words: nat, maps: nat, logLevel: int): nat {
    3 * words + 2 + maps * (3 + CloseLen(logLevel))
  }

  /** The length of the cleanup block fits into the offset of the jump over it. */
  predicate Skippable(progs: nat, maps: nat, logLevel: int) { CleanupLen(2 + progs, maps, logLevel) <= INT16_MAX }

  const MAX_SKIPPABLE_PROGS := 10919

  lemma SkippableProgs(progs: nat, maps: nat, logLevel: int)
    requires Skippable(progs, maps, logLevel)
    ensures progs <= MAX_SKIPPABLE_PROGS
  {
    assert maps * (3 + CloseLen(logLevel)) >= 0;
  }

  lemma OneMore(i: nat, maps: nat, each: nat)
    requires i < maps
    ensures i * each + each <= maps * each && (i + 1) * each == i * each + each
  {
    var rest := maps - i - 1;
    assert maps * each == (i + 1) * each + rest * each;
  }

  lemma CleanSlot(n: Note, words: nat, i: nat, maps: nat, m: Note)
    requires i < maps <= MAX_USED_MAPS && n == CleanNote(words, words, i, maps)
    requires Same(FreedSlot(n, 4 * i), m, {0, 1, 2, 3, 4, 5, 9})
    ensures WellNote(CleanNote(words, words, i + 1, maps)) && Weaker(m, CleanNote(words, words, i + 1, maps))
  {
    hide InFrame, Words, WellBooks;
    WordsStep(i, maps);
    var t := CleanNote(words, words, i + 1, maps);
    CleanBooksWell(words, words, i + 1, maps);
    assert m.books == t.books;
  }

  lemma CleanBooksWell(i: nat, words: nat, j: nat, maps: nat)
    requires maps <= MAX_USED_MAPS
    ensures WellBooks(CleanNote(i, words, j, maps).books)
  {
  }

  lemma CleanNoteWell(words: nat, maps: nat)
    requires maps <= MAX_USED_MAPS
    ensures WellNote(CleanNote(0, words, 0, maps))
  {
  }

  lemma ReadyWell()
    ensures WellNote(READY) && Weaker(READY, READY)
  {
  }

  lemma ReturnFlow(words: nat, maps: nat)
    ensures var n := CleanNote(words, words, maps, maps);
            n.Note? && |n.regs| == NR_REGS && FlowOn(MovReg(0, 7), n) == To(WithReg(n, 0, LastResult))
    ensures FlowOn(Exit, WithReg(CleanNote(words, words, maps, maps), 0, LastResult)) == To(Dead)
  {
    WordsEmpty(words);
    WordsEmpty(maps);
  }

  lemma ReturnNoted(p: seq<Insn>, notes: seq<Note>, cleanup: nat, words: nat, progs: nat, maps: nat)
    requires Layout(p, cleanup, |p|) && OneExit(p, |p|) && LabelNoted(p, notes, cleanup, progs, maps) && words == 2 + progs
    requires notes[|p| - 1] == WithReg(CleanNote(words, words, maps, maps), 0, LastResult)
    ensures CleanupNoted(p, notes, cleanup, |p|, progs, maps)
  {
  }

  lemma ReturnLayout(p0: seq<Insn>, p1: seq<Insn>, p2: seq<Insn>)
    requires p0 == PROLOG + [Ja(|p1| + 2 - |p0|)] && Pieces(p0, p1) && p2 == p1 + [MovReg(0, 7)] + [Exit]
    ensures Layout(p2, |p0|, |p2|) && OneExit(p2, |p2|)
  {
    forall pc | |p0| <= pc < |p2| ensures CleanupInsnOk(p2, |p2|, pc) {
      if pc < |p1| { assert PieceOk(p1, pc) && p2[pc] == p1[pc]; }
    }
    forall pc | 0 <= pc < |p0| - 1 ensures !IsJump(p2[pc]) && !p2[pc].Exit? { assert p2[pc] == PROLOG[pc]; }
    assert p2[|p0| - 1] == Ja(|p1| + 2 - |p0|);
    forall pc | 0 <= pc < |p2| && p2[pc] == Exit ensures pc == |p2| - 1 {
      if |p0| <= pc { assert CleanupInsnOk(p2, |p2|, pc); }
    }
  }

  lemma SuccessFinishes(p: seq<Insn>, notes: seq<Note>, cleanup: nat, end: nat, progs: nat, maps: nat, loaded: nat,
                        requests: seq<Request>, notes': seq<Note>)
    requires CleanupNoted(p, notes, cleanup, end, progs, maps) && |notes| == |p| + 1
    requires Typed(p + [Exit], notes', {}) && notes' == notes + [Dead] && ExitNote(notes[|p|], false, loaded)
    requires notes[|p|].books.asked == Exactly(requests)
    ensures Finished(p + [Exit], notes', cleanup, end, progs, loaded, requests)
  {
    LayoutMore(p, cleanup, end, Exit);
    hide Layout, Typed;
    var p' := p + [Exit];
    forall pc | 0 <= pc < |p'| && p'[pc] == Exit ensures pc == end - 1 || pc == |p'| - 1 {
      if pc < |p| { assert p'[pc] == p[pc]; }
    }
    LayoutEnd(p, cleanup, end);
  }

  lemma LayoutEnd(p: seq<Insn>, cleanup: nat, end: nat)
    requires Layout(p, cleanup, end)
    ensures 0 < cleanup < end <= |p|
  {
  }

  // ----- The initial jump -------------------------------------------------------------------------

  /** What Init generates before the cleanup block, when the block has len instructions. */
  predicate Begun(p: seq<Insn>, cleanup: nat, len: nat) {
    cleanup == |PROLOG| + 1 && PROLOG + [Ja(Signed16(len))] <= p
  }

  /** The first jump lands behind the cleanup block exactly when the length of the block fits. */
  lemma SkipsExactly(p: seq<Insn>, cleanup: nat, progs: nat, maps: nat, logLevel: int)
    requires Begun(p, cleanup, CleanupLen(2 + progs, maps, logLevel))
    ensures p[cleanup - 1].Ja? && (cleanup + p[cleanup - 1].off == cleanup + CleanupLen(2 + progs, maps, logLevel) <==> Skippable(progs, maps, logLevel))
  {
    var len := CleanupLen(2 + progs, maps, logLevel);
    assert p[cleanup - 1] == (PROLOG + [Ja(Signed16(len))])[cleanup - 1];
  }

  /** The machine before instruction k of the start. */
  predicate AtProlog(k: nat, s: Machine) {
    && Shape(s) && s.status == Running && !s.half && !s.beyond && s.pc == k <= |PROLOG| && s.regs[10] == StackPtr(0)
    && (k == 0 ==> s.regs[1] == CtxPtr) && (k == 2 ==> s.regs[1] == StackPtr(0)) && (3 <= k < 6 ==> s.regs[1] == StackPtr(-STACK_SZ))
    && (4 <= k < 6 ==> s.regs[2] == Num(STACK_SZ)) && (k == 5 ==> s.regs[3] == Num(0))
  }

  lemma PrologStep(p: seq<Insn>, k: nat, s: Machine, x: int)
    requires PROLOG <= p && AtProlog(k, s) && k < |PROLOG|
    ensures AtProlog(k + 1, StrictStep(p, s, x))
  {
    assert p[k] == PROLOG[k];
  }

  lemma {:induction false} FaultStays(p: seq<Insn>, s: Machine, xs: seq<int>)
    requires Shape(s) && s.status == Fault
    ensures StrictRun(p, s, xs).status == Fault
    decreases |xs|
  {
    if xs != [] { FaultStays(p, s, xs[1..]); }
  }

  /** A length that wraps around to a negative one sends every run out of the program. */
  lemma LongCleanupFaults(p: seq<Insn>, cleanup: nat, len: nat, s: Machine, xs: seq<int>)
    requires Begun(p, cleanup, len) && INT16_MAX < len < 0x1_0000 - cleanup && Boots(s) && |xs| >= cleanup + 1
    ensures StrictRun(p, s, xs).status == Fault
  {
    assert p[|PROLOG|] == (PROLOG + [Ja(Signed16(len))])[|PROLOG|] == Ja(len - 0x1_0000);
    assert PROLOG <= p;
    LeavesBefore(p, 0, len - 0x1_0000, s, xs);
  }

  lemma {:induction false} LeavesBefore(p: seq<Insn>, k: nat, off: int, s: Machine, xs: seq<int>)
    requires PROLOG <= p && |PROLOG| < |p| && p[|PROLOG|] == Ja(off) && off < -(|PROLOG| as int) - 1 && AtProlog(k, s) && |xs| >= 8 - k
    ensures StrictRun(p, s, xs).status == Fault
    decreases |xs|
  {
    PrologEnds(k, s);
    hide AtProlog;
    var s' := StrictStep(p, s, xs[0]);
    if k < |PROLOG| {
      PrologStep(p, k, s, xs[0]);
      LeavesBefore(p, k + 1, off, s', xs[1..]);
    } else {
      var s'' := StrictStep(p, s', xs[1..][0]);
      FaultStays(p, s'', xs[1..][1..]);
    }
  }

  lemma PrologEnds(k: nat, s: Machine)
    requires AtProlog(k, s)
    ensures Shape(s) && s.status == Running && !s.half && !s.beyond && s.pc == k <= |PROLOG|
  {
  }

  // ----- Places -----------------------------------------------------------------------------------

  /** Fields of the loader context. */
  const CTX_FLAGS := 4
  const CTX_LOG_LEVEL := 8
  const CTX_LOG_SIZE := 12
  const CTX_LOG_BUF := 16
  const CTX_SZ := 24
  const MAP_DESC_SZ := 16
  const PROG_DESC_SZ := 4

  /** Nothing is in the context yet, and the stack has been left if more programs were loaded than fit. */
  ghost predicate Level(b: Books, progs: nat) { b.out == map[] && AnyLevel(b, progs) }

  ghost predicate AnyLevel(b: Books, progs: nat) { b.must == b.may == (progs > MAX_USED_PROGS) }

  /** Where live descriptors may be after so many programs and maps. */
  ghost predicate PlacesOk(n: Note, progs: nat, maps: nat, btf: bool, inner: bool) {
    && n.Note? && Level(n.books, progs)
    && (forall i :: i in n.books.stk ==> WordUsed(i, progs, btf, inner))
    && (forall i :: i in n.books.maps ==> i < maps)
  }

  predicate WordUsed(i: nat, progs: nat, btf: bool, inner: bool) {
    (i == 0 && btf) || (i == 1 && inner) || (2 <= i < 2 + progs && i < STACK_WORDS)
  }

  lemma PlacesStart(btf: bool, inner: bool)
    ensures PlacesOk(READY, 0, 0, btf, inner) && Steady(READY) && Settled(READY.books)
  {
  }

  lemma PlacesFree(n: Note, progs: nat, maps: nat, inner: bool)
    requires PlacesOk(n, progs, maps, false, inner)
    ensures 0 !in n.books.stk
  {
  }

  lemma PlacesInnerFree(n: Note, progs: nat, maps: nat, btf: bool)
    requires PlacesOk(n, progs, maps, btf, false)
    ensures 1 !in n.books.stk
  {
  }

  /** The BTF data or an inner map has been stored. */
  lemma PlacesWord(n: Note, m: Note, off: int, i: nat, progs: nat, maps: nat, btf: bool, btf': bool, inner: bool, inner': bool)
    requires PlacesOk(n, progs, maps, btf, inner) && m.Note? && m.books == WordStored(n.books, off)
    requires IsStackWord(W, off) && StackWord(off) == i && (btf ==> btf') && (inner ==> inner')
    requires (i == 0 && btf') || (i == 1 && inner')
    ensures PlacesOk(m, progs, maps, btf', inner')
  {
    forall k | k in m.books.stk ensures WordUsed(k, progs, btf', inner') {
      if k != i { assert WordUsed(k, progs, btf, inner); }
    }
  }

  lemma ProgFree(n: Note, i: nat, maps: nat, btf: bool, inner: bool)
    requires PlacesOk(n, i, maps, btf, inner)
    ensures 2 + i !in n.books.stk
  {
  }

  /** Program i has been stored, in the stack or beyond it. */
  lemma PlacesProg(n: Note, m: Note, i: nat, maps: nat, btf: bool, inner: bool)
    requires PlacesOk(n, i, maps, btf, inner) && m.Note? && m.books == WordStored(n.books, ProgFd(i)) && IsFrameOffset(2 + i, ProgFd(i))
    ensures PlacesOk(m, i + 1, maps, btf, inner)
  {
    forall k | k in m.books.stk ensures WordUsed(k, i + 1, btf, inner) {
      if k != 2 + i { assert WordUsed(k, i, btf, inner); }
    }
  }

  lemma PlacesKept(n: Note, m: Note, progs: nat, maps: nat, btf: bool, inner: bool)
    requires PlacesOk(n, progs, maps, btf, inner) && m.Note? && Narrowed(n.books, m.books)
    ensures PlacesOk(m, progs, maps, btf, inner)
  {
  }

  lemma PlacesLevel(n: Note, progs: nat, maps: nat, btf: bool, inner: bool)
    requires PlacesOk(n, progs, maps, btf, inner)
    ensures n.Note? && Level(n.books, progs) && Level(Released(n.books, StackValue(0)), progs)
  {
  }

  lemma PlacesAsked(n: Note, m: Note, progs: nat, maps: nat, btf: bool, inner: bool, progs0: nat, maps0: nat)
    requires PlacesOk(n, progs, maps, btf, inner) && progs <= progs0 && maps <= maps0 && m.Note? && Narrowed(n.books, m.books)
    ensures FitsIn(m.books, progs0, maps0) && PlacesOk(m, progs, maps, btf, inner)
    ensures forall o :: PlacesOk(m.(books := m.books.(owes := o)), progs, maps, btf, inner)
  {
    PlacesKept(n, m, progs, maps, btf, inner);
    PlacesFit(m, progs, maps, btf, inner, progs0, maps0);
  }

  lemma PlacesFit(n: Note, progs: nat, maps: nat, btf: bool, inner: bool, progs0: nat, maps0: nat)
    requires PlacesOk(n, progs, maps, btf, inner) && progs <= progs0 && maps <= maps0
    ensures FitsIn(n.books, progs0, maps0)
  {
  }

  // ----- Handing over -----------------------------------------------------------------------------

  /** Where the context holds the descriptors of program i and map i. */
  function ProgCtx(maps: nat, i: nat): nat { CTX_SZ + MAP_DESC_SZ * maps + PROG_DESC_SZ * i }

  function MapCtx(i: nat): nat { CTX_SZ + MAP_DESC_SZ * i }

  /** The first programs, as far as they are in the stack, have been copied into the context. */
  ghost predicate OutProgs(out: map<int, RegType>, progs: nat, maps: nat) {
    forall k: nat :: k < progs && k < MAX_USED_PROGS ==> ProgCtx(maps, k) in out && out[ProgCtx(maps, k)] == StackValue(2 + k)
  }

  ghost predicate OutMaps(out: map<int, RegType>, maps: nat) {
    forall k: nat :: k < maps ==> MapCtx(k) in out && out[MapCtx(k)] == SlotValue(k)
  }

  /** The answers to the calls for programs and maps are in their places in the context. */
  ghost predicate HandsOver(n: Note, progCalls: seq<nat>, mapCalls: seq<nat>) {
    && n.Note? && 0 !in n.books.stk && OutProgs(n.books.out, |progCalls|, |mapCalls|) && OutMaps(n.books.out, |mapCalls|)
    && HeldProgs(n.books.held, progCalls) && HeldMaps(n.books.held, mapCalls)
  }

  /** a and b differ at most in what has been copied into the context. */
  ghost predicate OnlyOut(a: Books, b: Books) { b == a.(out := b.out) }

  lemma NothingOut(n: Note, maps: nat)
    ensures n.Note? ==> OutProgs(n.books.out, 0, maps) && OutMaps(n.books.out, 0)
  {
  }

  lemma NoProgsOut(out: map<int, RegType>, maps: nat)
    ensures OutProgs(out, 0, maps)
  {
  }

  lemma NoMapsOut(out: map<int, RegType>)
    ensures OutMaps(out, 0)
  {
  }

  lemma MapCtxOffset(i: nat)
    ensures MapCtx(i) % 4 == 0
  {
    assert MapCtx(i) == 4 * (6 + 4 * i);
  }

  lemma ProgCtxOffset(i: nat, maps: nat)
    ensures Signed16(ProgCtx(maps, i)) % 4 == 0
    ensures i < MAX_USED_PROGS && maps <= MAX_USED_MAPS ==> Signed16(ProgCtx(maps, i)) == ProgCtx(maps, i)
    ensures MAX_USED_PROGS <= i < MAX_SKIPPABLE_PROGS && maps <= MAX_USED_MAPS ==>
              Signed16(ProgCtx(maps, i)) < 0 || Signed16(ProgCtx(maps, i)) >= ProgCtx(maps, MAX_USED_PROGS)
  {
    var v := ProgCtx(maps, i);
    var q := v / 0x1_0000;
    assert v % 0x1_0000 == v - q * 0x1_0000;
  }

  lemma ProgCopied(n: Note, m: Note, i: nat, progs: nat, maps: nat)
    requires Steady(n) && i < progs <= MAX_SKIPPABLE_PROGS && maps <= MAX_USED_MAPS && AnyLevel(n.books, progs)
    requires OutProgs(n.books.out, i, maps)
    requires var w := WordLoaded(n, 0, ProgFd(i)); Same(CopiedTo(w, Signed16(ProgCtx(maps, i)), w.regs[0]), m, {})
    ensures OnlyOut(n.books, m.books) && OutProgs(m.books.out, i + 1, maps)
  {
    hide Signed16;
    ProgOffset(i);
    ProgCtxOffset(i, maps);
  }

  lemma MapCopied(n: Note, m: Note, i: nat, progs: nat, maps: nat)
    requires n.Note? && m.Note? && i < maps && m.books == CopiedTo(n, MapCtx(i), SlotValue(i)).books
    requires OutProgs(n.books.out, progs, maps) && OutMaps(n.books.out, i)
    ensures OnlyOut(n.books, m.books) && OutProgs(m.books.out, progs, maps) && OutMaps(m.books.out, i + 1)
  {
  }

  /** With the BTF data closed and the rest copied, the loader may return success. */
  lemma ResultsExit(n: Note, m: Note, progCalls: seq<nat>, mapCalls: seq<nat>, btf: bool, inner: bool)
    requires PlacesOk(n, |progCalls|, |mapCalls|, btf, inner) && Settled(n.books) && Steady(m) && m.regs[0] == Const(0)
    requires HeldProgs(n.books.held, progCalls) && HeldMaps(n.books.held, mapCalls)
    requires OnlyOut(Released(n.books, StackValue(0)), m.books)
    requires OutProgs(m.books.out, |progCalls|, |mapCalls|) && OutMaps(m.books.out, |mapCalls|)
    ensures ExitOk(m) && ExitNote(m, false, |progCalls|) && HandsOver(m, progCalls, mapCalls)
  {
    hide HeldProgs, HeldMaps;
    var b, progs, maps := m.books, |progCalls|, |mapCalls|;
    forall i | i in b.stk ensures i == 1 || CopiedOut(b, StackValue(i)) {
      assert WordUsed(i, progs, btf, inner);
      if i != 1 { assert b.out[ProgCtx(maps, i - 2)] == StackValue(2 + (i - 2)); }
    }
    forall i | i in b.maps ensures CopiedOut(b, SlotValue(i)) { assert b.out[MapCtx(i)] == SlotValue(i); }
  }

  /** When a finished loader returns 0, it has made every request in order and none has failed; the context
      holds the answer to each call that loaded a program or created a map, in its own place, and nothing
      else is open but 0 and an inner map that was never used. */
  lemma SuccessHandsOver(p: seq<Insn>, notes: seq<Note>, cleanup: nat, end: nat, announced: nat, requests: seq<Request>,
                         progCalls: seq<nat>, mapCalls: seq<nat>, s: Machine, xs: seq<int>)
    requires Finished(p, notes, cleanup, end, announced, |progCalls|, requests) && HandsOver(notes[|p| - 1], progCalls, mapCalls)
    requires CallsOf(requests, progCalls, PROG_LOAD) && CallsOf(requests, mapCalls, MAP_CREATE)
    requires Boots(s) && |xs| >= 2 * |p| + 1 && StrictRun(p, s, xs).status == Exited(0)
    ensures var u := StrictRun(p, s, xs); Requests(u.trace) == requests && Delivered(u) && |progCalls| <= MAX_USED_PROGS
    ensures forall k :: 0 <= k < |progCalls| ==> InContext(StrictRun(p, s, xs), ProgCtx(|mapCalls|, k), progCalls[k])
    ensures forall k :: 0 <= k < |mapCalls| ==> InContext(StrictRun(p, s, xs), MapCtx(k), mapCalls[k])
  {
    hide Boots, StrictRun, Delivered, HandsOver, OutOk, Complete, Layout, ExitNote, InContext, LogHolds, CallsOf, Requests, Recorded;
    BootShape(s);
    NotesCover(p, notes);
    SuccessIsLast(p, notes, cleanup, end, announced, |progCalls|, requests, s, xs);
    CopiesDelivered(notes[|p| - 1], progCalls, mapCalls, requests, StrictRun(p, s, xs));
  }

  lemma CopiesDelivered(n: Note, progCalls: seq<nat>, mapCalls: seq<nat>, requests: seq<Request>, u: Machine)
    requires HandsOver(n, progCalls, mapCalls) && OutOk(n.books, u) && LogHolds(n.books, u) && |progCalls| <= MAX_USED_PROGS
    requires u.failed == 0 && Requests(u.trace) == requests
    requires CallsOf(requests, progCalls, PROG_LOAD) && CallsOf(requests, mapCalls, MAP_CREATE)
    ensures forall k :: 0 <= k < |progCalls| ==> InContext(u, ProgCtx(|mapCalls|, k), progCalls[k])
    ensures forall k :: 0 <= k < |mapCalls| ==> InContext(u, MapCtx(k), mapCalls[k])
  {
    var b := n.books;
    hide AnsweredZero, InContext;
    forall k | 0 <= k < |progCalls| ensures InContext(u, ProgCtx(|mapCalls|, k), progCalls[k]) {
      assert ProgCtx(|mapCalls|, k) in b.out && ProgPlace(k) in b.held;
      CopyDelivered(b, u, ProgCtx(|mapCalls|, k), ProgPlace(k), progCalls[k], PROG_LOAD);
    }
    forall k | 0 <= k < |mapCalls| ensures InContext(u, MapCtx(k), mapCalls[k]) {
      assert MapCtx(k) in b.out && SlotValue(k) in b.held;
      CopyDelivered(b, u, MapCtx(k), SlotValue(k), mapCalls[k], MAP_CREATE);
    }
  }

  lemma CopyDelivered(b: Books, u: Machine, off: int, t: RegType, call: nat, cmd: int)
    requires OutOk(b, u) && HeldOk(b.held, u) && Recorded(u) && u.failed == 0 && IsPlace(t)
    requires off in b.out && b.out[off] == t && t in b.held && b.held[t] == call && call < |u.trace| && u.trace[call].request == Bpf(cmd)
    ensures InContext(u, off, call)
  {
    hide AnsweredZero;
    assert HasType(t, Num(u.ctx[off]), u) && HasType(t, Num(u.trace[call].res % TWO32), u);
    assert IsAnswer(u.trace[call]) && !Reportable(u.trace[call].request, u.trace[call].res);
  }

  /** The context holds the descriptor that a call returned. */
  ghost predicate InContext(u: Machine, off: int, call: nat) {
    off in u.ctx && call < |u.trace| && u.ctx[off] == u.trace[call].res >= 0
  }

  /** Storing BTF data or an inner map touches no place of a program or a map. */
  lemma HeldElsewhere(b: Books, off: int, progCalls: seq<nat>, mapCalls: seq<nat>)
    requires IsStackWord(W, off) && StackWord(off) < 2 && HeldProgs(b.held, progCalls) && HeldMaps(b.held, mapCalls)
    ensures HeldProgs(WordStored(b, off).held, progCalls) && HeldMaps(WordStored(b, off).held, mapCalls)
  {
  }

  lemma HeldMap(b: Books, requests: seq<Request>, progCalls: seq<nat>, mapCalls: seq<nat>, idx: nat)
    requires HeldProgs(b.held, progCalls) && HeldMaps(b.held, mapCalls) && idx == |mapCalls|
    requires b.pend && b.asked == Exactly(requests) && requests != []
    ensures HeldProgs(SlotStored(b, idx).held, progCalls) && HeldMaps(SlotStored(b, idx).held, mapCalls + [|requests| - 1])
  {
  }

  lemma HeldProg(b: Books, requests: seq<Request>, progCalls: seq<nat>, mapCalls: seq<nat>)
    requires HeldProgs(b.held, progCalls) && HeldMaps(b.held, mapCalls) && IsFrameOffset(2 + |progCalls|, ProgFd(|progCalls|))
    requires b.pend && b.asked == Exactly(requests) && requests != []
    ensures HeldProgs(WordStored(b, ProgFd(|progCalls|)).held, progCalls + [|requests| - 1])
    ensures HeldMaps(WordStored(b, ProgFd(|progCalls|)).held, mapCalls)
  {
    hide Signed16;
  }

  const SKEL_KERNEL := 1

  lemma KnownSymbol(ks: seq<Ksym>, k: nat, used: int, ks': seq<Ksym>)
    requires SymbolsOk(ks, used) && k < |ks'|
    requires (k < |ks| && ks' == ks[k := ks[k].(ref := ks[k].ref + 1)]) || (k == |ks| && |ks'| == k + 1 && ks'[k].ref == 1)
    requires ks'[k].ref > 1
    ensures SymbolsOk(ks', used) && IsElsewhere(ks'[k].insn)
  {
    FdArrayUseUpdate(ks, k, ks'[k]);
  }

  lemma NewSymbol(ks: seq<Ksym>, k: nat, used: int)
    requires SymbolsOk(ks, used) && k <= |ks|
    ensures k < |ks| ==> ks[k].ref >= 1
  {
  }

  lemma CountBounds(ks: seq<Ksym>, used: int)
    requires SymbolsOk(ks, used)
    ensures 0 <= used <= MAX_KFUNC_DESCS
  {
  }

  lemma FiledKfunc(ks: seq<Ksym>, r: Relo, used: int, used': int, insn: nat, idx: nat, typeless: bool)
    requires SymbolsOk(ks, used) && IsElsewhere(insn) && !r.isLd64 && used' <= MAX_KFUNC_DESCS
    requires used' == used + if idx < MAX_FD_ARRAY_SZ then 1 else 0
    ensures SymbolsOk(ks + [NewKsym(r, typeless).(off := idx, insn := insn)], used')
  {
    FdArrayUseMore(ks, NewKsym(r, typeless).(off := idx, insn := insn));
  }

  lemma FiledKsym(ks: seq<Ksym>, k: nat, used: int, ks': seq<Ksym>)
    requires SymbolsOk(ks, used) && |ks'| == k + 1 && k == |ks| && ks'[..k] == ks && ks'[k].isLd64 && ks'[k].ref == 1 && IsElsewhere(ks'[k].insn)
    ensures SymbolsOk(ks', used)
  {
    assert ks' == ks + [ks'[k]];
    FdArrayUseMore(ks, ks'[k]);
  }
}
