/** Notes on loader programs.  A note describes what is known before an instruction: what the registers
    hold, which stack words and map slots may hold live file descriptors, whether the last system call
    returned one that has not been stored yet, and whether its failure still has to be noticed.  A program
    whose notes fit together only exits with everything closed or handed over (RunIsSafe). */
module LoaderTypes {
  import opened Numbers
  import opened Loader

  /** What a register holds.  Unknown registers may not be read.  The last three are known to be positive. */
  datatype RegType =
    | Unknown | Number | Const(v: int) | IsCtx | IsStack(off: int) | IsBlob(off: int)
    | LastResult | StackValue(i: nat) | SlotValue(i: nat) | Positive | OpenStack(i: nat) | OpenSlot(i: nat)

  /** Whether a failed call still has to be noticed; a lookup may find that the symbol does not exist. */
  datatype Owes = Paid | Due | DueUnlessMissing

  /** What has been asked so far: the same on every way to an instruction, or unknown. */
  datatype Asked = Anything | Exactly(requests: seq<Request>)

  /** stk and maps are the stack words and map slots that may hold live descriptors.  With pend, the last
      result may be a live descriptor too.  With neg, the last result is an error that has been noticed.
      must and may bound whether an access outside the loader's stack has happened.  out are the stack words
      and map slots that have been copied into the context.  held says of places which call they hold the
      result of. */
  datatype Books = Books(stk: set<nat>, maps: set<nat>, pend: bool, neg: bool, owes: Owes, must: bool, may: bool,
                         out: map<int, RegType>, asked: Asked, held: map<RegType, nat>)

  /** What is known before an instruction.  Dead code has no state. */
  datatype Note = Dead | Note(half: bool, regs: seq<RegType>, books: Books)

  predicate IsNumeric(t: RegType) {
    t.Number? || t.Const? || t.LastResult? || t.StackValue? || t.SlotValue? || IsOpen(t)
  }

  /** Known to be positive, so that closing it cannot close descriptor 0. */
  predicate IsOpen(t: RegType) { t.Positive? || t.OpenStack? || t.OpenSlot? }

  function Opened(t: RegType): RegType {
    match t
    case StackValue(i) => OpenStack(i)
    case SlotValue(i) => OpenSlot(i)
    case OpenStack(_) => t
    case OpenSlot(_) => t
    case _ => Positive
  }

  predicate IsPlace(t: RegType) { t.StackValue? || t.SlotValue? }

  predicate WellType(t: RegType) {
    (t.StackValue? || t.OpenStack? ==> t.i < STACK_WORDS) && (t.SlotValue? || t.OpenSlot? ==> t.i < MAX_USED_MAPS)
  }

  predicate WellRegs(regs: seq<RegType>) {
    |regs| == NR_REGS && forall r :: 0 <= r < NR_REGS ==> WellType(regs[r])
  }

  predicate WellBooks(b: Books) {
    && (forall i :: i in b.stk ==> i < STACK_WORDS) && (forall i :: i in b.maps ==> i < MAX_USED_MAPS)
    && (forall o :: o in b.out ==> IsPlace(b.out[o]) && WellType(b.out[o]))
    && (b.neg ==> b.owes == Paid)
    && (forall t :: t in b.held ==> IsPlace(t) && WellType(t))
  }

  predicate WellNote(n: Note) { n.Note? ==> WellRegs(n.regs) && WellBooks(n.books) }

  // ----- What a note says about a state -----------------------------------------------------------

  ghost predicate HasType(t: RegType, v: Val, s: Machine) {
    match t
    case Unknown => true
    case Number => v.Num?
    case Const(c) => v == Num(c)
    case IsCtx => v == CtxPtr
    case IsStack(o) => v == StackPtr(o)
    case IsBlob(o) => v == BlobPtr(o)
    case LastResult => v == Num(s.last)
    case StackValue(i) => i < |s.stack| && v == Num(s.stack[i])
    case SlotValue(i) => i < |s.slots| && v == Num(s.slots[i])
    case Positive => v.Num? && v.v > 0
    case OpenStack(i) => i < |s.stack| && v == Num(s.stack[i]) && s.stack[i] > 0
    case OpenSlot(i) => i < |s.slots| && v == Num(s.slots[i]) && s.slots[i] > 0
  }

  ghost predicate WordsOk(ws: seq<int>) {
    forall i :: 0 <= i < |ws| ==> 0 <= ws[i] < TWO32
  }

  /** Descriptor d is 0 or stored where the books say. */
  ghost predicate Kept(b: Books, s: Machine, d: int) {
    || d == 0
    || (exists i :: i in b.stk && i < |s.stack| && s.stack[i] == d)
    || (exists i :: i in b.maps && i < |s.slots| && s.slots[i] == d)
    || (b.pend && s.last >= 0 && d == s.last)
  }

  ghost predicate Accounted(b: Books, s: Machine) {
    s.beyond || forall d :: d in s.live ==> Kept(b, s, d)
  }

  ghost predicate TypesHold(regs: seq<RegType>, s: Machine) {
    |regs| == |s.regs| == NR_REGS && forall r :: 0 <= r < NR_REGS ==> HasType(regs[r], s.regs[r], s)
  }

  ghost predicate LastOk(b: Books, s: Machine) {
    && -TWO63 <= s.last < TWO63 && (b.neg ==> s.last < 0) && (b.pend ==> s.last < TWO31)
    && (b.must ==> s.beyond) && (s.beyond ==> b.may)
  }

  /** What may be known about a failure. */
  ghost predicate OwesOk(b: Books, s: Machine) {
    s.failed ==
    match b.owes
    case Paid => if b.neg then s.last else 0
    case Due => if s.last < 0 then s.last else 0
    case DueUnlessMissing => if s.last < 0 && s.last != ENOENT then s.last else 0
  }

  ghost predicate OutOk(b: Books, s: Machine) {
    forall o :: o in b.out ==> o in s.ctx && HasType(b.out[o], Num(s.ctx[o]), s)
  }

  ghost predicate StateHolds(b: Books, s: Machine) {
    && WellBooks(b) && Shape(s) && WordsOk(s.stack) && WordsOk(s.slots)
    && Accounted(b, s) && LastOk(b, s) && OwesOk(b, s) && OutOk(b, s)
  }

  /** Descriptor 0 is never closed, and without a failure every call succeeded. */
  ghost predicate Recorded(s: Machine) {
    && (0 in s.live <==> AnsweredZero(s.trace))
    && (s.failed == 0 ==> forall i :: 0 <= i < |s.trace| ==> !Reportable(s.trace[i].request, s.trace[i].res))
    && (forall i :: 0 <= i < |s.trace| ==> IsAnswer(s.trace[i]))
  }

  /** Results of bpf() are 32-bit signed numbers. */
  predicate IsAnswer(a: Answer) { a.request.Bpf? ==> a.res < TWO31 }

  ghost predicate HeldOk(held: map<RegType, nat>, s: Machine) {
    forall t :: t in held ==> held[t] < |s.trace| && HasType(t, Num(s.trace[held[t]].res % TWO32), s)
  }

  /** What has been asked and where the answers are. */
  ghost predicate LogHolds(b: Books, s: Machine) {
    && (b.asked.Exactly? ==> Requests(s.trace) == b.asked.requests) && HeldOk(b.held, s) && Recorded(s)
    && (b.pend ==> s.trace != [] && s.trace[|s.trace| - 1].res == s.last)
  }

  ghost predicate BooksHold(b: Books, s: Machine) { StateHolds(b, s) && LogHolds(b, s) }

  ghost predicate Holds(n: Note, s: Machine) {
    && n.Note? && WellRegs(n.regs) && Shape(s) && s.status == Running && s.half == n.half
    && TypesHold(n.regs, s) && BooksHold(n.books, s)
  }

  // ----- Weakening --------------------------------------------------------------------------------

  predicate WeakerType(t: RegType, u: RegType) { t == u || u.Unknown? || (u.Number? && IsNumeric(t)) }

  predicate WeakerBooks(a: Books, b: Books) {
    && a.stk <= b.stk && a.maps <= b.maps && (a.pend ==> b.pend || a.neg) && (b.pend ==> a.pend)
    && a.neg == b.neg && a.owes == b.owes && (b.must ==> a.must) && (a.may ==> b.may)
    && (forall o :: o in b.out ==> o in a.out && a.out[o] == b.out[o])
    && (b.asked.Anything? || b.asked == a.asked) && Fewer(a.held, b.held)
  }

  predicate Fewer(a: map<RegType, nat>, b: map<RegType, nat>) { forall t :: t in b ==> t in a && a[t] == b[t] }

  /** Whatever satisfies n satisfies m. */
  predicate Weaker(n: Note, m: Note) {
    n.Dead? ||
    (m.Note? && n.half == m.half && |n.regs| == |m.regs| == NR_REGS
     && (forall r :: 0 <= r < NR_REGS ==> WeakerType(n.regs[r], m.regs[r]))
     && WeakerBooks(n.books, m.books))
  }

  /** The log only depends on the trace, the places and descriptor 0. */
  lemma SameLog(a: Books, b: Books, s: Machine, s': Machine)
    requires LogHolds(a, s) && (b.asked.Anything? || b.asked == a.asked) && Fewer(a.held, b.held) && (b.pend ==> a.pend)
    requires s'.trace == s.trace && s'.stack == s.stack && s'.slots == s.slots && s'.last == s.last && s'.failed == s.failed
    requires 0 in s'.live <==> 0 in s.live
    ensures LogHolds(b, s')
  {
    forall t | t in b.held ensures b.held[t] < |s'.trace| && HasType(t, Num(s'.trace[b.held[t]].res % TWO32), s') {
      assert HasType(t, Num(s.trace[a.held[t]].res % TWO32), s);
    }
  }

  lemma WeakerBooksHold(a: Books, b: Books, s: Machine)
    requires BooksHold(a, s) && WeakerBooks(a, b) && WellBooks(b)
    ensures BooksHold(b, s)
  {
    SameLog(a, b, s, s);
    hide LogHolds;
    if !s.beyond {
      forall d | d in s.live ensures Kept(b, s, d) { assert Kept(a, s, d); }
    }
    forall o | o in b.out ensures o in s.ctx && HasType(b.out[o], Num(s.ctx[o]), s) { assert o in a.out; }
  }

  lemma WeakerHolds(n: Note, m: Note, s: Machine)
    requires Holds(n, s) && Weaker(n, m) && WellNote(m)
    ensures Holds(m, s)
  {
    WeakerBooksHold(n.books, m.books, s);
    hide BooksHold, WeakerBooks;
    forall r | 0 <= r < NR_REGS ensures HasType(m.regs[r], s.regs[r], s) {
      assert HasType(n.regs[r], s.regs[r], s) && WeakerType(n.regs[r], m.regs[r]);
    }
  }

  lemma WeakerTrans(a: Note, b: Note, c: Note)
    requires Weaker(a, b) && Weaker(b, c)
    ensures Weaker(a, c)
  {
    if a.Note? {
      forall r | 0 <= r < NR_REGS ensures WeakerType(a.regs[r], c.regs[r]) {
        assert WeakerType(a.regs[r], b.regs[r]) && WeakerType(b.regs[r], c.regs[r]);
      }
    }
  }

  // ----- Flow -------------------------------------------------------------------------------------

  datatype Flow = Bad | To(note: Note)

  /** Registers that repeat a value that is about to change. */
  function Forget(regs: seq<RegType>, t: RegType): (out: seq<RegType>)
    ensures |out| == |regs|
    ensures forall r :: 0 <= r < |regs| ==> out[r] == if regs[r] == t || regs[r] == Opened(t) then Number else regs[r]
  {
    seq(|regs|, r requires 0 <= r < |regs| => if regs[r] == t || regs[r] == Opened(t) then Number else regs[r])
  }

  /** Copies in the context of a place that is about to change. */
  function ForgetOut(out: map<int, RegType>, t: RegType): map<int, RegType> {
    map o | o in out && out[o] != t :: out[o]
  }

  function SetReg(n: Note, d: nat, t: RegType): Flow
    requires n.Note? && |n.regs| == NR_REGS
  {
    if ValidReg(d) && d != 10 then To(n.(regs := n.regs[d := t])) else Bad
  }

  /** The books once an access outside the stack has happened. */
  function Strayed(b: Books): Books { b.(must := true, may := true) }

  function FlowLoad(n: Note, size: Size, d: nat, r: nat, off: int): Flow
    requires n.Note? && |n.regs| == NR_REGS
  {
    if !ValidReg(r) then Bad
    else
      match n.regs[r]
      case IsCtx => SetReg(n, d, Number)
      case IsStack(base) =>
        if IsStackWord(size, base + off) then SetReg(n, d, StackValue(StackWord(base + off)))
        else if IsBeyond(size, base + off) then SetReg(n.(books := Strayed(n.books)), d, Number)
        else Bad
      case IsBlob(base) =>
        if IsSlot(size, base + off) then SetReg(n, d, SlotValue((base + off) / 4))
        else if IsElsewhere(base + off) then SetReg(n, d, Number) else Bad
      case _ => Bad
  }

  /** A place now holds the last result. */
  function Filed(b: Books, t: RegType): map<RegType, nat> {
    if b.pend && b.asked.Exactly? && b.asked.requests != [] then b.held[t := |b.asked.requests| - 1] else b.held - {t}
  }

  function StackStored(b: Books, i: nat): Books {
    b.(stk := b.stk + {i}, pend := false, out := ForgetOut(b.out, StackValue(i)), held := Filed(b, StackValue(i)))
  }

  function SlotStored(b: Books, i: nat): Books {
    b.(maps := b.maps + {i}, pend := false, out := ForgetOut(b.out, SlotValue(i)), held := Filed(b, SlotValue(i)))
  }

  /** A place copied into the context is remembered. */
  function CtxStored(b: Books, off: int, t: RegType): Books {
    b.(out := if IsPlace(t) then b.out[off := t] else b.out - {off})
  }

  /** Only the result of the last call may be stored where descriptors are kept, and only in a free place. */
  function FlowStore(n: Note, size: Size, d: nat, off: int, t: RegType): Flow
    requires n.Note? && |n.regs| == NR_REGS
  {
    if !ValidReg(d) || t.Unknown? then Bad
    else
      match n.regs[d]
      case IsCtx => if size == W && off % 4 == 0 && IsNumeric(t) then To(n.(books := CtxStored(n.books, off, t))) else Bad
      case IsStack(base) =>
        if IsStackWord(size, base + off) then
          var i := StackWord(base + off);
          if t == LastResult && i !in n.books.stk then
            To(n.(regs := Forget(n.regs, StackValue(i)), books := StackStored(n.books, i)))
          else Bad
        else if IsBeyond(size, base + off) && IsNumeric(t) then To(n.(books := Strayed(n.books).(pend := false)))
        else Bad
      case IsBlob(base) =>
        if IsSlot(size, base + off) then
          var i := (base + off) / 4;
          if t == LastResult && i !in n.books.maps then
            To(n.(regs := Forget(n.regs, SlotValue(i)), books := SlotStored(n.books, i)))
          else Bad
        else if IsElsewhere(base + off) then To(n) else Bad
      case _ => Bad
  }

  function CallRegs(regs: seq<RegType>, t: RegType): (out: seq<RegType>)
    requires |regs| == NR_REGS
    ensures |out| == NR_REGS
  {
    [t, Unknown, Unknown, Unknown, Unknown, Unknown] + regs[6..]
  }

  predicate BufferType(t: RegType) { t.IsBlob? && IsElsewhere(t.off) }

  /** The last result is replaced: registers that held the previous one only hold a number. */
  function NewResult(n: Note, q: Request, pend: bool, owes: Owes): Note
    requires n.Note? && |n.regs| == NR_REGS
  {
    n.(regs := CallRegs(Forget(n.regs, LastResult), LastResult),
       books := n.books.(pend := pend, owes := owes, asked := Asking(n.books.asked, q)))
  }

  function Asking(a: Asked, q: Request): Asked { if a.Exactly? then Exactly(a.requests + [q]) else a }

  /** Calls whose result is kept wait until the previous one has been dealt with. */
  predicate Settled(b: Books) { !b.pend && !b.neg && b.owes == Paid }

  /** The books once what a place holds has been closed. */
  function Released(b: Books, t: RegType): Books {
    match t
    case StackValue(i) => b.(stk := b.stk - {i})
    case SlotValue(i) => b.(maps := b.maps - {i})
    case OpenStack(i) => b.(stk := b.stk - {i})
    case OpenSlot(i) => b.(maps := b.maps - {i})
    case _ => b
  }

  function FlowCall(n: Note, h: Helper): Flow
    requires n.Note? && |n.regs| == NR_REGS
  {
    var r := n.regs;
    var plain := n.(regs := CallRegs(r, Number));
    match h
    case ProbeReadKernel =>
      if r[1] == IsStack(-STACK_SZ) && r[2] == Const(STACK_SZ) && r[3] == Const(0) && n.books.stk == {} && n.books.out == map[]
         && n.books.held == map[] && r[6] == IsCtx && r[10] == IsStack(0) then
        To(n.(regs := [Number, Unknown, Unknown, Unknown, Unknown, Unknown, IsCtx, Unknown, Unknown, Unknown, IsStack(0)]))
      else if BufferType(r[1]) && IsNumeric(r[2]) && IsNumeric(r[3]) then To(plain)
      else Bad
    case CopyFromUser => if BufferType(r[1]) && IsNumeric(r[2]) && IsNumeric(r[3]) then To(plain) else Bad
    case SysBpf =>
      if r[1].Const? && BufferType(r[2]) && IsNumeric(r[3]) && Settled(n.books) then
        To(NewResult(n, Bpf(r[1].v), Opens(r[1].v), Due))
      else Bad
    case SysClose => if IsOpen(r[1]) then To(plain.(books := Released(n.books, r[1]))) else Bad
    case TracePrintk => if r[1].IsBlob? && IsNumeric(r[2]) then To(plain) else Bad
    case FindByNameKind(optional) =>
      if r[1].IsBlob? && IsNumeric(r[2]) && IsNumeric(r[3]) && IsNumeric(r[4]) && Settled(n.books) then
        To(NewResult(n, Find(optional), false, if optional then Paid else Due))
      else Bad
    case KallsymsLookup =>
      if r[1].IsBlob? && IsNumeric(r[2]) && IsNumeric(r[3]) && BufferType(r[4]) && Settled(n.books) then
        To(NewResult(n, Symbol, false, DueUnlessMissing))
      else Bad
  }

  /** The comparisons that say something about the last result. */
  predicate ChecksLast(c: Cond, t: RegType, v: int) { c == Jslt && t == LastResult && v == 0 }

  predicate ChecksMissing(c: Cond, t: RegType, v: int) { c == Jeq && t == LastResult && v == ENOENT }

  /** The note after a conditional jump that is not taken.  A failure may be checked once. */
  function FlowPast(n: Note, c: Cond, d: nat, t: RegType, v: int): Flow
    requires n.Note? && d < |n.regs|
  {
    if ChecksLast(c, t, v) then
      if n.books.owes == Due then To(n.(books := n.books.(owes := Paid))) else Bad
    else if ChecksMissing(c, t, v) && n.books.owes == DueUnlessMissing then To(n.(books := n.books.(owes := Due)))
    else if c == Jsle && v == 0 && d != 10 then To(n.(regs := n.regs[d := Opened(t)]))
    else To(n)
  }

  /** The note after an instruction that falls through, before which n holds. */
  function FlowOn(i: Insn, n: Note): Flow
    requires n.Note? && |n.regs| == NR_REGS
  {
    if n.half != i.LoadBlobHi? then Bad
    else
      match i
      case MovReg(d, r) => if ValidReg(r) && !n.regs[r].Unknown? then SetReg(n, d, n.regs[r]) else Bad
      case MovImm(d, v) => SetReg(n, d, Const(v))
      case AddImm(d, v) => if ValidReg(d) && n.regs[d].IsStack? then SetReg(n, d, IsStack(n.regs[d].off + v)) else Bad
      case Rsh(d, k) => if ValidReg(d) && IsNumeric(n.regs[d]) && k == 32 then SetReg(n, d, Number) else Bad
      case And32(d, _) => if ValidReg(d) && IsNumeric(n.regs[d]) then SetReg(n, d, Number) else Bad
      case LoadBlob(d, a) => if ValidReg(d) && d != 10 then To(n.(regs := n.regs[d := IsBlob(a)], half := true)) else Bad
      case LoadBlobHi => To(n.(half := false))
      case Ldx(size, d, r, o) => FlowLoad(n, size, d, r, o)
      case Stx(size, d, r, o) => if ValidReg(r) then FlowStore(n, size, d, o, n.regs[r]) else Bad
      case St(size, d, o, v) => FlowStore(n, size, d, o, Number)
      case Jmp(c, d, v, o) => if ValidReg(d) && IsNumeric(n.regs[d]) then FlowPast(n, c, d, n.regs[d], v) else Bad
      case Ja(_) => To(Dead)
      case Call(h) => FlowCall(n, h)
      case Exit => if ExitOk(n) then To(Dead) else Bad
  }

  predicate CopiedOut(b: Books, t: RegType) { exists o :: o in b.out && b.out[o] == t }

  /** A place that may still hold a live descriptor is in the context; an inner map may be left over. */
  predicate HandedOver(b: Books) {
    (forall i :: i in b.stk ==> i == 1 || CopiedOut(b, StackValue(i))) && forall i :: i in b.maps ==> CopiedOut(b, SlotValue(i))
  }

  /** Exits are reached with success and everything handed over, or with an error and nothing left open. */
  predicate ExitOk(n: Note)
    requires n.Note? && |n.regs| == NR_REGS
  {
    var b := n.books;
    b.must == b.may && b.owes == Paid && !b.pend &&
    if b.neg then n.regs[0] == LastResult && b.stk == {} && b.maps == {} else n.regs[0] == Const(0) && HandedOver(b)
  }

  /** The note where a taken jump lands. */
  function FlowJump(i: Insn, n: Note): Note
    requires n.Note? && |n.regs| == NR_REGS
  {
    if i.Jmp? && ValidReg(i.dst) then
      var t := n.regs[i.dst];
      if ChecksLast(i.cond, t, i.imm) then n.(books := n.books.(neg := true, owes := Paid))
      else if ChecksMissing(i.cond, t, i.imm) && n.books.owes == DueUnlessMissing then n.(books := n.books.(owes := Paid))
      else if i.cond == Jsle && i.imm == 0 then n.(books := Released(n.books, t))
      else n
    else n
  }

  // ----- Soundness of the flow --------------------------------------------------------------------

  /** The books only depend on memory, descriptors and results. */
  lemma SameBooks(b: Books, s: Machine, s': Machine)
    requires BooksHold(b, s) && Shape(s')
    requires s.stack == s'.stack && s.slots == s'.slots && s.ctx == s'.ctx && s.live == s'.live
    requires s.last == s'.last && s.failed == s'.failed && s.beyond == s'.beyond && s.trace == s'.trace
    ensures BooksHold(b, s')
  {
    SameLog(b, b, s, s');
    hide LogHolds;
    if !s.beyond {
      forall d | d in s'.live ensures Kept(b, s', d) { assert Kept(b, s, d); }
    }
    forall o | o in b.out ensures o in s'.ctx && HasType(b.out[o], Num(s'.ctx[o]), s') { }
  }

  /** Setting one register, with everything else as it was. */
  lemma SetRegSound(n: Note, s: Machine, d: nat, t: RegType, v: Val)
    requires Holds(n, s) && ValidReg(d) && HasType(t, v, s) && WellType(t)
    ensures Holds(n.(regs := n.regs[d := t]), Next(s, s.regs[d := v]))
  {
    hide BooksHold;
    var m, s' := n.(regs := n.regs[d := t]), Next(s, s.regs[d := v]);
    SameBooks(n.books, s, s');
    forall r | 0 <= r < NR_REGS ensures HasType(m.regs[r], s'.regs[r], s') {
      assert HasType(n.regs[r], s.regs[r], s);
    }
  }

  lemma MoveSound(p: seq<Insn>, n: Note, s: Machine, x: int)
    requires Holds(n, s) && 0 <= s.pc < |p| && FlowOn(p[s.pc], n).To?
    requires var i := p[s.pc]; i.MovReg? || i.MovImm? || i.AddImm? || i.Rsh? || i.And32? || i.LoadBlob? || i.LoadBlobHi?
    ensures Holds(FlowOn(p[s.pc], n).note, Step(p, s, x)) && Step(p, s, x).pc == s.pc + 1
  {
    hide BooksHold;
    match p[s.pc]
    case MovReg(d, r) =>
      assert HasType(n.regs[r], s.regs[r], s);
      SetRegSound(n, s, d, n.regs[r], s.regs[r]);
    case MovImm(d, v) => SetRegSound(n, s, d, Const(v), Num(v));
    case AddImm(d, v) =>
      assert HasType(n.regs[d], s.regs[d], s);
      SetRegSound(n, s, d, IsStack(n.regs[d].off + v), StackPtr(s.regs[d].off + v));
    case Rsh(d, k) =>
      assert HasType(n.regs[d], s.regs[d], s);
      SetRegSound(n, s, d, Number, Num(s.regs[d].v % TWO64 / TWO32));
    case And32(d, _) =>
      assert HasType(n.regs[d], s.regs[d], s);
      SetRegSound(n, s, d, Number, Num(Loaded(W, x)));
    case LoadBlob(d, a) =>
      SetRegSound(n, s, d, IsBlob(a), BlobPtr(a));
      HalfSound(n.(regs := n.regs[d := IsBlob(a)]), Next(s, s.regs[d := BlobPtr(a)]), true);
    case LoadBlobHi =>
      HalfSound(n, s, false);
      PcSound(n.(half := false), s.(half := false), s.pc + 1);
  }

  lemma HalfSound(n: Note, s: Machine, half: bool)
    requires Holds(n, s)
    ensures Holds(n.(half := half), s.(half := half))
  {
    hide BooksHold;
    SameBooks(n.books, s, s.(half := half));
    forall r | 0 <= r < NR_REGS ensures HasType(n.regs[r], s.regs[r], s.(half := half)) {
      assert HasType(n.regs[r], s.regs[r], s);
    }
  }

  lemma PcSound(n: Note, s: Machine, pc: int)
    requires Holds(n, s)
    ensures Holds(n, s.(pc := pc))
  {
    hide BooksHold;
    SameBooks(n.books, s, s.(pc := pc));
    forall r | 0 <= r < NR_REGS ensures HasType(n.regs[r], s.regs[r], s.(pc := pc)) {
      assert HasType(n.regs[r], s.regs[r], s);
    }
  }

  /** Replacing the books, and what only they depend on. */
  lemma BooksChange(n: Note, s: Machine, b: Books, s': Machine)
    requires Holds(n, s) && BooksHold(b, s') && s'.regs == s.regs && s'.status == Running && s'.half == s.half
    requires s'.stack == s.stack && s'.slots == s.slots && s'.last == s.last
    ensures Holds(n.(books := b), s')
  {
    hide BooksHold;
    forall r | 0 <= r < NR_REGS ensures HasType(n.regs[r], s'.regs[r], s') {
      assert HasType(n.regs[r], s.regs[r], s);
    }
  }

  lemma StraySound(n: Note, s: Machine, pend: bool)
    requires Holds(n, s) && (pend ==> n.books.pend)
    ensures Holds(n.(books := Strayed(n.books).(pend := pend)), s.(beyond := true))
  {
    var b, s' := Strayed(n.books).(pend := pend), s.(beyond := true);
    SameLog(n.books, b, s, s');
    hide LogHolds;
    assert BooksHold(b, s') by {
      forall o | o in b.out ensures o in s'.ctx && HasType(b.out[o], Num(s'.ctx[o]), s') {
        assert HasType(n.books.out[o], Num(s.ctx[o]), s);
      }
    }
    BooksChange(n, s, b, s');
  }

  lemma LoadSound(p: seq<Insn>, n: Note, s: Machine, x: int)
    requires Holds(n, s) && 0 <= s.pc < |p| && FlowOn(p[s.pc], n).To? && p[s.pc].Ldx?
    ensures Holds(FlowOn(p[s.pc], n).note, Step(p, s, x)) && Step(p, s, x).pc == s.pc + 1
  {
    hide BooksHold, Loaded, WellRegs;
    var Ldx(size, d, r, off) := p[s.pc];
    assert HasType(n.regs[r], s.regs[r], s);
    match n.regs[r]
    case IsCtx => SetRegSound(n, s, d, Number, Num(Loaded(size, x)));
    case IsStack(base) =>
      if IsStackWord(size, base + off) {
        var i := StackWord(base + off);
        SetRegSound(n, s, d, StackValue(i), Num(s.stack[i]));
      } else {
        StraySound(n, s, n.books.pend);
        assert Strayed(n.books).(pend := n.books.pend) == Strayed(n.books);
        SetRegSound(n.(books := Strayed(n.books)), s.(beyond := true), d, Number, Num(Loaded(size, x)));
      }
    case IsBlob(base) =>
      if IsSlot(size, base + off) {
        var i := (base + off) / 4;
        SetRegSound(n, s, d, SlotValue(i), Num(s.slots[i]));
      } else {
        SetRegSound(n, s, d, Number, Num(Loaded(size, x)));
      }
  }

  lemma FiledWell(b: Books, t: RegType)
    requires WellBooks(b) && IsPlace(t) && WellType(t)
    ensures forall u :: u in Filed(b, t) ==> IsPlace(u) && WellType(u)
  {
  }

  /** The place stored into holds the answer to the last call, the others what they held. */
  lemma StackLog(b: Books, s: Machine, i: nat)
    requires LogHolds(b, s) && |s.stack| == STACK_WORDS && i < STACK_WORDS && WellBooks(b)
    ensures LogHolds(StackStored(b, i), s.(stack := s.stack[i := s.last % TWO32]))
  {
    hide Recorded;
    var c, s' := StackStored(b, i), s.(stack := s.stack[i := s.last % TWO32]);
    SameRecord(s, s');
    forall t | t in c.held ensures c.held[t] < |s'.trace| && HasType(t, Num(s'.trace[c.held[t]].res % TWO32), s') {
      if t != StackValue(i) {
        assert t in b.held && IsPlace(t);
        assert HasType(t, Num(s.trace[b.held[t]].res % TWO32), s);
      }
    }
  }

  lemma SlotLog(b: Books, s: Machine, i: nat)
    requires LogHolds(b, s) && |s.slots| == MAX_USED_MAPS && i < MAX_USED_MAPS && WellBooks(b)
    ensures LogHolds(SlotStored(b, i), s.(slots := s.slots[i := s.last % TWO32]))
  {
    hide Recorded;
    var c, s' := SlotStored(b, i), s.(slots := s.slots[i := s.last % TWO32]);
    SameRecord(s, s');
    forall t | t in c.held ensures c.held[t] < |s'.trace| && HasType(t, Num(s'.trace[c.held[t]].res % TWO32), s') {
      if t != SlotValue(i) {
        assert t in b.held && IsPlace(t);
        assert HasType(t, Num(s.trace[b.held[t]].res % TWO32), s);
      }
    }
  }

  lemma SameRecord(s: Machine, s': Machine)
    requires Recorded(s) && s'.trace == s.trace && s'.failed == s.failed && (0 in s'.live <==> 0 in s.live)
    ensures Recorded(s')
  {
  }

  /** Storing the last result in a free stack word. */
  lemma StackBooks(b: Books, s: Machine, i: nat)
    requires BooksHold(b, s) && i < STACK_WORDS && i !in b.stk
    ensures BooksHold(StackStored(b, i), s.(stack := s.stack[i := s.last % TWO32]))
  {
    StackLog(b, s, i);
    hide LogHolds, Filed;
    var c, s' := StackStored(b, i), s.(stack := s.stack[i := s.last % TWO32]);
    FiledWell(b, StackValue(i));
    if !s.beyond {
      forall d | d in s'.live ensures Kept(c, s', d) {
        assert Kept(b, s, d);
        if b.pend && s.last >= 0 && d == s.last {
          assert s'.stack[i] == d && i in c.stk;
        } else if exists k :: k in b.stk && k < |s.stack| && s.stack[k] == d {
          var k :| k in b.stk && k < |s.stack| && s.stack[k] == d;
          assert k in c.stk && s'.stack[k] == d;
        }
      }
    }
    forall o | o in c.out ensures o in s'.ctx && HasType(c.out[o], Num(s'.ctx[o]), s') {
      assert HasType(b.out[o], Num(s.ctx[o]), s);
    }
  }

  lemma StackStoreSound(n: Note, s: Machine, i: nat)
    requires Holds(n, s) && i < STACK_WORDS && i !in n.books.stk
    ensures Holds(n.(regs := Forget(n.regs, StackValue(i)), books := StackStored(n.books, i)),
                  s.(stack := s.stack[i := s.last % TWO32]))
  {
    StackBooks(n.books, s, i);
    hide BooksHold;
    var m, s' := Forget(n.regs, StackValue(i)), s.(stack := s.stack[i := s.last % TWO32]);
    forall r | 0 <= r < NR_REGS ensures HasType(m[r], s'.regs[r], s') && WellType(m[r]) {
      assert HasType(n.regs[r], s.regs[r], s) && WellType(n.regs[r]);
    }
  }

  /** Storing the last result in a free map slot. */
  lemma SlotBooks(b: Books, s: Machine, i: nat)
    requires BooksHold(b, s) && i < MAX_USED_MAPS && i !in b.maps
    ensures BooksHold(SlotStored(b, i), s.(slots := s.slots[i := s.last % TWO32]))
  {
    SlotLog(b, s, i);
    hide LogHolds, Filed;
    var c, s' := SlotStored(b, i), s.(slots := s.slots[i := s.last % TWO32]);
    FiledWell(b, SlotValue(i));
    if !s.beyond {
      forall d | d in s'.live ensures Kept(c, s', d) {
        assert Kept(b, s, d);
        if b.pend && s.last >= 0 && d == s.last {
          assert s'.slots[i] == d && i in c.maps;
        } else if exists k :: k in b.maps && k < |s.slots| && s.slots[k] == d {
          var k :| k in b.maps && k < |s.slots| && s.slots[k] == d;
          assert k in c.maps && s'.slots[k] == d;
        }
      }
    }
    forall o | o in c.out ensures o in s'.ctx && HasType(c.out[o], Num(s'.ctx[o]), s') {
      assert HasType(b.out[o], Num(s.ctx[o]), s);
    }
  }

  lemma SlotStoreSound(n: Note, s: Machine, i: nat)
    requires Holds(n, s) && i < MAX_USED_MAPS && i !in n.books.maps
    ensures Holds(n.(regs := Forget(n.regs, SlotValue(i)), books := SlotStored(n.books, i)),
                  s.(slots := s.slots[i := s.last % TWO32]))
  {
    SlotBooks(n.books, s, i);
    hide BooksHold;
    var m, s' := Forget(n.regs, SlotValue(i)), s.(slots := s.slots[i := s.last % TWO32]);
    forall r | 0 <= r < NR_REGS ensures HasType(m[r], s'.regs[r], s') && WellType(m[r]) {
      assert HasType(n.regs[r], s.regs[r], s) && WellType(n.regs[r]);
    }
  }

  /** Words are below 2^32, so copying one into the context keeps its value. */
  lemma CtxStoreSound(n: Note, s: Machine, off: int, t: RegType, v: int)
    requires Holds(n, s) && HasType(t, Num(v), s) && WellType(t)
    ensures Holds(n.(books := CtxStored(n.books, off, t)), s.(ctx := s.ctx[off := v % TWO32]))
  {
    var b, s' := CtxStored(n.books, off, t), s.(ctx := s.ctx[off := v % TWO32]);
    SameLog(n.books, b, s, s');
    hide LogHolds;
    assert BooksHold(b, s') by {
      if !s.beyond {
        forall d | d in s'.live ensures Kept(b, s', d) { assert Kept(n.books, s, d); }
      }
      forall o | o in b.out ensures o in s'.ctx && HasType(b.out[o], Num(s'.ctx[o]), s') {
        if o != off { assert HasType(n.books.out[o], Num(s.ctx[o]), s); }
      }
    }
    BooksChange(n, s, b, s');
  }

  lemma StoreSound(n: Note, s: Machine, size: Size, d: nat, off: int, t: RegType, v: Val)
    requires Holds(n, s) && HasType(t, v, s) && WellType(t) && FlowStore(n, size, d, off, t).To?
    ensures Holds(FlowStore(n, size, d, off, t).note, StepStore(s, size, d, off, v))
    ensures StepStore(s, size, d, off, v).pc == s.pc + 1
  {
    hide BooksHold, StackStored, SlotStored, CtxStored, Strayed, Forget;
    assert HasType(n.regs[d], s.regs[d], s);
    PcSound(n, s, s.pc + 1);
    var s1 := Next(s, s.regs);
    match n.regs[d]
    case IsCtx => CtxStoreSound(n, s1, off, t, v.v);
    case IsStack(base) =>
      if IsStackWord(size, base + off) { StackStoreSound(n, s1, StackWord(base + off)); } else { StraySound(n, s1, false); }
    case IsBlob(base) =>
      if IsSlot(size, base + off) { SlotStoreSound(n, s1, (base + off) / 4); }
  }

  /** Registers after a call that leaves descriptors alone. */
  lemma CallRegsSound(n: Note, s: Machine, t: RegType, v: int)
    requires Holds(n, s) && HasType(t, Num(v), s) && !IsPlace(t)
    ensures Holds(n.(regs := CallRegs(n.regs, t)), Next(s, AfterCall(s.regs, v)))
  {
    hide BooksHold;
    var m, s' := n.(regs := CallRegs(n.regs, t)), Next(s, AfterCall(s.regs, v));
    SameBooks(n.books, s, s');
    CallRegsWell(n.regs, t);
    forall r | 0 <= r < NR_REGS ensures HasType(m.regs[r], s'.regs[r], s') {
      assert HasType(n.regs[r], s.regs[r], s);
    }
  }

  /** The descriptors open after a call: a successful opening call adds one. */
  ghost predicate Opening(q: Request, res: int, before: set<int>, after: set<int>) {
    after == if q.Bpf? && Opens(q.cmd) && res >= 0 then before + {res} else before
  }

  /** The books after a call that sets the last result. */
  lemma ResultBooks(b: Books, s: Machine, q: Request, res: int, live: set<int>, pend: bool, owes: Owes)
    requires BooksHold(b, s) && Settled(b) && -TWO63 <= res < TWO63 && (q.Bpf? ==> res < TWO31)
    requires Opening(q, res, s.live, live) && pend == (q.Bpf? && Opens(q.cmd))
    requires match owes
             case Paid => !Reportable(q, res)
             case Due => Reportable(q, res) == (res < 0)
             case DueUnlessMissing => Reportable(q, res) == (res < 0 && res != ENOENT)
    ensures BooksHold(b.(pend := pend, owes := owes, asked := Asking(b.asked, q)), WithResult(s, q, res).(live := live))
  {
    ResultLog(b, s, q, res, live, pend, owes);
    hide LogHolds, Reportable;
    var c, s' := b.(pend := pend, owes := owes, asked := Asking(b.asked, q)), WithResult(s, q, res).(live := live);
    if !s.beyond {
      forall d | d in s'.live ensures Kept(c, s', d) {
        if d in s.live { assert Kept(b, s, d); }
      }
    }
    forall o | o in c.out ensures o in s'.ctx && HasType(c.out[o], Num(s'.ctx[o]), s') {
      assert HasType(b.out[o], Num(s.ctx[o]), s);
    }
  }

  lemma ResultLog(b: Books, s: Machine, q: Request, res: int, live: set<int>, pend: bool, owes: Owes)
    requires LogHolds(b, s) && WellBooks(b) && Shape(s) && Opening(q, res, s.live, live) && (q.Bpf? ==> res < TWO31)
    ensures LogHolds(b.(pend := pend, owes := owes, asked := Asking(b.asked, q)), WithResult(s, q, res).(live := live))
  {
    var c, s' := b.(pend := pend, owes := owes, asked := Asking(b.asked, q)), WithResult(s, q, res).(live := live);
    ResultRecord(s, s', q, res);
    hide Recorded, Reportable;
    assert s'.trace[|s.trace|] == Answer(q, res);
    assert Requests(s'.trace) == Requests(s.trace) + [q];
    forall t | t in c.held ensures c.held[t] < |s'.trace| && HasType(t, Num(s'.trace[c.held[t]].res % TWO32), s') {
      assert HasType(t, Num(s.trace[b.held[t]].res % TWO32), s) && IsPlace(t);
      assert s'.trace[c.held[t]] == s.trace[b.held[t]];
    }
  }

  lemma ResultRecord(s: Machine, s': Machine, q: Request, res: int)
    requires Recorded(s) && Opening(q, res, s.live, s'.live) && s'.trace == s.trace + [Answer(q, res)]
    requires s'.failed == (if Reportable(q, res) then res else s.failed) && (q.Bpf? ==> res < TWO31)
    ensures Recorded(s')
  {
    ZeroMore(s.trace, Answer(q, res));
    hide AnsweredZero;
    forall i | 0 <= i < |s'.trace| ensures IsAnswer(s'.trace[i]) {
      if i < |s.trace| { assert s'.trace[i] == s.trace[i]; }
    }
    if s'.failed == 0 {
      forall i | 0 <= i < |s'.trace| ensures !Reportable(s'.trace[i].request, s'.trace[i].res) {
        if i < |s.trace| { assert s'.trace[i] == s.trace[i]; }
      }
    }
  }

  lemma ZeroMore(trace: seq<Answer>, a: Answer)
    ensures AnsweredZero(trace + [a]) <==> AnsweredZero(trace) || OpensZero(a)
  {
    var more := trace + [a];
    if AnsweredZero(trace) {
      var i :| 0 <= i < |trace| && OpensZero(trace[i]);
      assert more[i] == trace[i];
    }
    assert more[|trace|] == a;
    if AnsweredZero(more) && !OpensZero(a) {
      var i :| 0 <= i < |more| && OpensZero(more[i]);
      assert more[i] == trace[i];
    }
  }

  lemma NewResultSound(n: Note, s: Machine, q: Request, res: int, live: set<int>, pend: bool, owes: Owes)
    requires Holds(n, s) && Settled(n.books) && -TWO63 <= res < TWO63 && (q.Bpf? ==> res < TWO31)
    requires Opening(q, res, s.live, live) && pend == (q.Bpf? && Opens(q.cmd))
    requires match owes
             case Paid => !Reportable(q, res)
             case Due => Reportable(q, res) == (res < 0)
             case DueUnlessMissing => Reportable(q, res) == (res < 0 && res != ENOENT)
    ensures Holds(NewResult(n, q, pend, owes), WithResult(s, q, res).(live := live))
  {
    ResultBooks(n.books, s, q, res, live, pend, owes);
    hide BooksHold, Reportable;
    var m, s' := NewResult(n, q, pend, owes), WithResult(s, q, res).(live := live);
    ForgetWell(n.regs, LastResult);
    CallRegsWell(Forget(n.regs, LastResult), LastResult);
    forall r | 0 <= r < NR_REGS ensures HasType(m.regs[r], s'.regs[r], s') {
      assert HasType(n.regs[r], s.regs[r], s);
    }
  }

  /** Closing what a place holds frees that place. */
  lemma CloseBooks(b: Books, t: RegType, s: Machine, v: int)
    requires BooksHold(b, s) && HasType(t, Num(v), s) && v > 0
    ensures BooksHold(Released(b, t), s.(live := s.live - {v}))
  {
    CloseState(b, t, s, v);
    hide StateHolds;
    SameLog(b, Released(b, t), s, s.(live := s.live - {v}));
  }

  lemma CloseState(b: Books, t: RegType, s: Machine, v: int)
    requires StateHolds(b, s) && HasType(t, Num(v), s)
    ensures StateHolds(Released(b, t), s.(live := s.live - {v}))
  {
    var c, s' := Released(b, t), s.(live := s.live - {v});
    if !s.beyond {
      forall d | d in s'.live ensures Kept(c, s', d) {
        assert Kept(b, s, d);
        if exists k :: k in b.stk && k < |s.stack| && s.stack[k] == d {
          var k :| k in b.stk && k < |s.stack| && s.stack[k] == d;
          assert k in c.stk;
        } else if exists k :: k in b.maps && k < |s.slots| && s.slots[k] == d {
          var k :| k in b.maps && k < |s.slots| && s.slots[k] == d;
          assert k in c.maps;
        }
      }
    }
    forall o | o in c.out ensures o in s'.ctx && HasType(c.out[o], Num(s'.ctx[o]), s') {
      assert HasType(b.out[o], Num(s.ctx[o]), s);
    }
  }

  lemma ZeroBooks(b: Books, s: Machine)
    requires BooksHold(b, s) && b.stk == {} && b.out == map[] && b.held == map[]
    ensures BooksHold(b, s.(stack := seq(STACK_WORDS, _ => 0)))
  {
    var s' := s.(stack := seq(STACK_WORDS, _ => 0));
    SameRecord(s, s');
    hide Recorded;
    if !s.beyond {
      forall d | d in s'.live ensures Kept(b, s', d) { assert Kept(b, s, d); }
    }
  }

  lemma ZeroStackSound(n: Note, s: Machine, v: int)
    requires Holds(n, s) && FlowCall(n, ProbeReadKernel).To? && n.regs[1].IsStack?
    ensures Holds(FlowCall(n, ProbeReadKernel).note, Next(s, AfterCall(s.regs, v)).(stack := seq(STACK_WORDS, _ => 0)))
  {
    var s1 := Next(s, AfterCall(s.regs, v));
    var m, s' := FlowCall(n, ProbeReadKernel).note, s1.(stack := seq(STACK_WORDS, _ => 0));
    SameBooks(n.books, s, s1);
    ZeroBooks(n.books, s1);
    hide BooksHold;
    ZeroRegsWell();
    forall r | 0 <= r < NR_REGS ensures HasType(m.regs[r], s'.regs[r], s') {
      assert HasType(n.regs[r], s.regs[r], s);
    }
  }

  lemma CallSound(n: Note, s: Machine, h: Helper, x: int)
    requires Holds(n, s) && FlowCall(n, h).To?
    ensures Holds(FlowCall(n, h).note, StepCall(s, h, x)) && StepCall(s, h, x).pc == s.pc + 1
  {
    if h == SysBpf {
      BpfCallSound(n, s, x);
    } else if h.FindByNameKind? || h == KallsymsLookup {
      LookupSound(n, s, h, x);
    } else {
      PlainCallSound(n, s, h, x);
    }
  }

  lemma RegHolds(n: Note, s: Machine, r: nat)
    requires Holds(n, s) && r < NR_REGS
    ensures n.Note? && |n.regs| == |s.regs| == NR_REGS && HasType(n.regs[r], s.regs[r], s)
  {
  }

  /** The first registers, as calls look at them. */
  lemma ArgsHold(n: Note, s: Machine)
    requires Holds(n, s)
    ensures n.Note? && |n.regs| == |s.regs| == NR_REGS && HasType(n.regs[1], s.regs[1], s) && HasType(n.regs[2], s.regs[2], s)
    ensures HasType(n.regs[3], s.regs[3], s) && HasType(n.regs[4], s.regs[4], s)
  {
    hide Holds;
    RegHolds(n, s, 1);
    RegHolds(n, s, 2);
    RegHolds(n, s, 3);
    RegHolds(n, s, 4);
  }

  lemma PlainCallSound(n: Note, s: Machine, h: Helper, x: int)
    requires Holds(n, s) && FlowCall(n, h).To? && (h == ProbeReadKernel || h == CopyFromUser || h == TracePrintk || h == SysClose)
    ensures Holds(FlowCall(n, h).note, StepCall(s, h, x)) && StepCall(s, h, x).pc == s.pc + 1
  {
    hide Holds, Released, AfterCall, CallRegs;
    ArgsHold(n, s);
    if h == SysClose {
      CloseCallSound(n, s, Signed64(x));
    } else if h == ProbeReadKernel && n.regs[1].IsStack? {
      ZeroStackSound(n, s, Signed64(x));
    } else {
      CallRegsSound(n, s, Number, Signed64(x));
    }
  }

  lemma BpfCallSound(n: Note, s: Machine, x: int)
    requires Holds(n, s) && FlowCall(n, SysBpf).To?
    ensures Holds(FlowCall(n, SysBpf).note, StepCall(s, SysBpf, x)) && StepCall(s, SysBpf, x).pc == s.pc + 1
  {
    hide Holds, AfterCall, CallRegs, Forget;
    ArgsHold(n, s);
    var res := Signed32(x);
    var isNew := res >= 0 && Opens(s.regs[1].v);
    NewResultSound(n, s, Bpf(s.regs[1].v), res, if isNew then s.live + {res} else s.live, Opens(s.regs[1].v), Due);
  }

  lemma LookupSound(n: Note, s: Machine, h: Helper, x: int)
    requires Holds(n, s) && FlowCall(n, h).To? && (h.FindByNameKind? || h == KallsymsLookup)
    ensures Holds(FlowCall(n, h).note, StepCall(s, h, x)) && StepCall(s, h, x).pc == s.pc + 1
  {
    hide Holds, AfterCall, CallRegs, Forget;
    ArgsHold(n, s);
    if h == KallsymsLookup {
      NewResultSound(n, s, Symbol, Signed64(x), s.live, false, DueUnlessMissing);
    } else {
      NewResultSound(n, s, Find(h.optional), Signed64(x), s.live, false, if h.optional then Paid else Due);
    }
  }

  lemma CloseCallSound(n: Note, s: Machine, v: int)
    requires Holds(n, s) && FlowCall(n, SysClose).To? && s.regs[1].Num?
    ensures Holds(FlowCall(n, SysClose).note, Next(s, AfterCall(s.regs, v)).(live := s.live - {s.regs[1].v}))
  {
    hide BooksHold, Released;
    var fd, t := s.regs[1].v, n.regs[1];
    assert HasType(t, s.regs[1], s);
    CallRegsSound(n, s, Number, v);
    var plain, s1 := n.(regs := CallRegs(n.regs, Number)), Next(s, AfterCall(s.regs, v));
    CloseBooks(n.books, t, s1, fd);
    BooksChange(plain, s1, Released(n.books, t), s1.(live := s1.live - {fd}));
  }

  /** A place whose value is zero or negative holds no live descriptor but 0. */
  lemma EmptyPlaceBooks(b: Books, t: RegType, s: Machine, v: int)
    requires BooksHold(b, s) && HasType(t, Num(v), s) && v <= 0
    ensures BooksHold(Released(b, t), s)
  {
    CloseState(b, t, s, v);
    var c, s0 := Released(b, t), s.(live := s.live - {v});
    SameLog(b, c, s, s);
    hide LogHolds;
    if IsPlace(t) {
      assert v == 0;
      if !s.beyond {
        forall d | d in s.live ensures Kept(c, s, d) {
          if d != 0 { assert d in s0.live && Kept(c, s0, d); }
        }
      }
      forall o | o in c.out ensures o in s.ctx && HasType(c.out[o], Num(s.ctx[o]), s) {
        assert HasType(b.out[o], Num(s.ctx[o]), s);
      }
    }
  }

  /** Only what is known about the failure changes. */
  lemma OwesBooks(b: Books, s: Machine, neg: bool, owes: Owes)
    requires BooksHold(b, s) && (neg ==> s.last < 0 && owes == Paid) && OwesOk(b.(neg := neg, owes := owes), s)
    ensures BooksHold(b.(neg := neg, owes := owes), s)
  {
    SameLog(b, b.(neg := neg, owes := owes), s, s);
    hide LogHolds;
    if !s.beyond {
      forall d | d in s.live ensures Kept(b.(neg := neg, owes := owes), s, d) { assert Kept(b, s, d); }
    }
  }

  /** A taken jump: what the comparison tells about the last result or a stored descriptor. */
  lemma TakenSound(i: Insn, n: Note, s: Machine, x: int)
    requires Holds(n, s) && i.Jmp? && FlowOn(i, n).To? && ValidReg(i.dst) && s.regs[i.dst].Num?
    requires Taken(i.cond, s.regs[i.dst].v, i.imm, x)
    ensures Holds(FlowJump(i, n), s)
  {
    var t, b := n.regs[i.dst], n.books;
    assert HasType(t, s.regs[i.dst], s);
    if ChecksLast(i.cond, t, i.imm) {
      OwesBooks(b, s, true, Paid);
      BooksChange(n, s, b.(neg := true, owes := Paid), s);
    } else if ChecksMissing(i.cond, t, i.imm) && b.owes == DueUnlessMissing {
      OwesBooks(b, s, b.neg, Paid);
      BooksChange(n, s, b.(neg := b.neg, owes := Paid), s);
    } else if i.cond == Jsle && i.imm == 0 {
      EmptyPlaceBooks(b, t, s, s.regs[i.dst].v);
      hide BooksHold, Released;
      BooksChange(n, s, Released(b, t), s);
    }
  }

  lemma PastSound(i: Insn, n: Note, s: Machine, x: int)
    requires Holds(n, s) && i.Jmp? && FlowOn(i, n).To? && ValidReg(i.dst) && s.regs[i.dst].Num?
    requires !Taken(i.cond, s.regs[i.dst].v, i.imm, x)
    ensures Holds(FlowOn(i, n).note, s)
  {
    var t, b := n.regs[i.dst], n.books;
    assert HasType(t, s.regs[i.dst], s);
    if ChecksLast(i.cond, t, i.imm) {
      OwesBooks(b, s, b.neg, Paid);
      BooksChange(n, s, b.(neg := b.neg, owes := Paid), s);
    } else if ChecksMissing(i.cond, t, i.imm) && b.owes == DueUnlessMissing {
      OwesBooks(b, s, b.neg, Due);
      BooksChange(n, s, b.(neg := b.neg, owes := Due), s);
    } else if i.cond == Jsle && i.imm == 0 && i.dst != 10 {
      OpenedSound(t, s.regs[i.dst].v, s);
      hide BooksHold;
      assert s.regs[i.dst := s.regs[i.dst]] == s.regs;
      SetRegSound(n, s, i.dst, Opened(t), s.regs[i.dst]);
      PcSound(n.(regs := n.regs[i.dst := Opened(t)]), Next(s, s.regs), s.pc);
    }
  }

  lemma OpenedSound(t: RegType, v: int, s: Machine)
    requires HasType(t, Num(v), s) && v > 0
    ensures HasType(Opened(t), Num(v), s) && (WellType(t) ==> WellType(Opened(t)))
  {
  }

  // ----- Typed programs ---------------------------------------------------------------------------

  /** A jump target beyond the end of the program so far, with the note that will have to fit there. */
  datatype Debt = Debt(target: int, note: Note)

  predicate IsJump(i: Insn) { i.Jmp? || i.Ja? }

  /** A jump with note n may land on t. */
  ghost predicate Lands(p: seq<Insn>, notes: seq<Note>, debts: set<Debt>, t: int, n: Note) {
    && 0 <= t && |notes| == |p| + 1
    && (t < |p| ==> Weaker(n, notes[t]))
    && (t == |p| ==> Weaker(n, notes[t]) || Debt(t, n) in debts)
    && (t > |p| ==> Debt(t, n) in debts)
  }

  ghost predicate InsnOk(p: seq<Insn>, notes: seq<Note>, debts: set<Debt>, pc: nat)
    requires pc < |p| && |notes| == |p| + 1
  {
    var i, n := p[pc], notes[pc];
    && n.Note? && WellNote(n) && FlowOn(i, n).To? && Weaker(FlowOn(i, n).note, notes[pc + 1])
    && (IsJump(i) ==> Lands(p, notes, debts, pc + 1 + i.off, FlowJump(i, n)))
  }

  const EMPTY := Books({}, {}, false, false, Paid, false, false, map[], Exactly([]), map[])

  const START := Note(false, [Unknown, IsCtx, Unknown, Unknown, Unknown, Unknown, Unknown, Unknown, Unknown, Unknown, IsStack(0)], EMPTY)

  ghost predicate Typed(p: seq<Insn>, notes: seq<Note>, debts: set<Debt>) {
    && |notes| == |p| + 1 && Weaker(START, notes[0]) && WellNote(notes[|p|])
    && forall pc :: 0 <= pc < |p| ==> InsnOk(p, notes, debts, pc)
  }

  /** A finished program: no jump leaves it and nothing falls off its end. */
  ghost predicate Complete(p: seq<Insn>, notes: seq<Note>) {
    Typed(p, notes, {}) && notes[|p|] == Dead && |p| > 0
  }

  /** An open descriptor other than 0 is in the context, or is the one of an inner map never used. */
  ghost predicate Delivered(s: Machine) {
    forall d :: d in s.live ==> d == 0 || d in s.ctx.Values || (1 < |s.stack| && d == s.stack[1])
  }

  /** How a run ends at an exit with note n: with the result of the call whose failure has to be reported
      and nothing left open, or with 0 and everything handed over. */
  ghost predicate Ended(n: Note, s: Machine, ret: int) {
    && n.Note? && ret == s.failed <= 0 && n.books.neg == (s.failed < 0) && s.beyond == n.books.must && OutOk(n.books, s) && LogHolds(n.books, s)
    && (!s.beyond && s.failed < 0 ==> s.live <= {0}) && (!s.beyond && s.failed == 0 ==> Delivered(s))
  }

  /** What is true of every state of a run. */
  ghost predicate Safe(p: seq<Insn>, notes: seq<Note>, s: Machine) {
    |notes| == |p| + 1 && 0 <= s.pc < |p| && Shape(s) &&
    match s.status
    case Running => Holds(notes[s.pc], s)
    case Exited(ret) => p[s.pc] == Exit && Ended(notes[s.pc], s, ret)
    case Fault => false
  }

  lemma BootIsSafe(p: seq<Insn>, notes: seq<Note>, s: Machine)
    requires Complete(p, notes) && Boots(s)
    ensures Safe(p, notes, s)
  {
    assert BooksHold(EMPTY, s);
    assert Holds(START, s);
    assert InsnOk(p, notes, {}, 0);
    hide Holds, Weaker;
    WeakerHolds(START, notes[0], s);
  }

  lemma FallsSafely(p: seq<Insn>, notes: seq<Note>, s: Machine, m: Note, s': Machine)
    requires Complete(p, notes) && 0 <= s.pc < |p| && Weaker(m, notes[s.pc + 1]) && Holds(m, s') && s'.pc == s.pc + 1
    ensures Safe(p, notes, s')
  {
    assert notes[s'.pc].Note?;
    assert s'.pc < |p|;
    assert InsnOk(p, notes, {}, s'.pc);
    WeakerHolds(m, notes[s'.pc], s');
  }

  lemma LandsSafely(p: seq<Insn>, notes: seq<Note>, s: Machine, t: int)
    requires Complete(p, notes) && 0 <= s.pc < |p| && IsJump(p[s.pc]) && t == s.pc + 1 + p[s.pc].off
    requires InsnOk(p, notes, {}, s.pc) && Holds(FlowJump(p[s.pc], notes[s.pc]), s)
    ensures Safe(p, notes, s.(pc := t))
  {
    var m := FlowJump(p[s.pc], notes[s.pc]);
    assert Lands(p, notes, {}, t, m);
    assert InsnOk(p, notes, {}, t);
    PcSound(m, s, t);
    WeakerHolds(m, notes[t], s.(pc := t));
  }

  lemma ExitIsSafe(n: Note, s: Machine)
    requires Holds(n, s) && ExitOk(n)
    ensures s.regs[0].Num? && Ended(n, s.(status := Exited(s.regs[0].v)), s.regs[0].v)
  {
    var b := n.books;
    assert HasType(n.regs[0], s.regs[0], s);
    if !s.beyond {
      forall d | d in s.live
        ensures b.neg ==> d == 0
        ensures !b.neg ==> d == 0 || d in s.ctx.Values || d == s.stack[1]
      {
        assert Kept(b, s, d);
        if !b.neg && d != 0 { KeptIsDelivered(b, s, d); }
      }
    }
    var s' := s.(status := Exited(s.regs[0].v));
    SameLog(b, b, s, s');
    forall o | o in b.out ensures HasType(b.out[o], Num(s'.ctx[o]), s') { assert HasType(b.out[o], Num(s.ctx[o]), s); }
  }

  lemma KeptIsDelivered(b: Books, s: Machine, d: int)
    requires BooksHold(b, s) && HandedOver(b) && !b.pend && Kept(b, s, d) && d != 0
    ensures d in s.ctx.Values || d == s.stack[1]
  {
    if exists k :: k in b.stk && k < |s.stack| && s.stack[k] == d {
      var k :| k in b.stk && k < |s.stack| && s.stack[k] == d;
      if k != 1 {
        var o :| o in b.out && b.out[o] == StackValue(k);
        assert o in s.ctx && s.ctx[o] == d;
      }
    } else {
      var k :| k in b.maps && k < |s.slots| && s.slots[k] == d;
      var o :| o in b.out && b.out[o] == SlotValue(k);
      assert o in s.ctx && s.ctx[o] == d;
    }
  }

  /** No step of a finished program faults, whatever the environment answers. */
  lemma StepIsSafe(p: seq<Insn>, notes: seq<Note>, s: Machine, x: int)
    requires Complete(p, notes) && Shape(s) && Safe(p, notes, s)
    ensures Safe(p, notes, Step(p, s, x))
  {
    if s.status == Running {
      assert InsnOk(p, notes, {}, s.pc);
      hide *;
      StepOfKind(p, notes, s, x);
    }
  }

  lemma StepOfKind(p: seq<Insn>, notes: seq<Note>, s: Machine, x: int)
    requires Complete(p, notes) && Shape(s) && Safe(p, notes, s) && s.status == Running && InsnOk(p, notes, {}, s.pc)
    ensures Safe(p, notes, Step(p, s, x))
  {
    hide Complete, Typed, FlowJump, FlowLoad, FlowStore, FlowCall, Weaker, StepLoad, StepStore, StepCall;
    hide BooksHold, WellRegs, InsnOk, FlowPast, Ended;
    StepFacts(p, notes, s);
    var i, n := p[s.pc], notes[s.pc];
    var s' := Step(p, s, x);
    match i
    case Exit => ExitIsSafe(n, s);
    case Ja(o) => LandsSafely(p, notes, s, s.pc + 1 + o);
    case Jmp(c, d, v, o) =>
      assert HasType(n.regs[d], s.regs[d], s);
      if Taken(c, s.regs[d].v, v, x) {
        TakenSound(i, n, s, x);
        LandsSafely(p, notes, s, s.pc + 1 + o);
      } else {
        PastSound(i, n, s, x);
        PcSound(FlowOn(i, n).note, s, s.pc + 1);
        FallsSafely(p, notes, s, FlowOn(i, n).note, s');
      }
    case _ =>
      StepFalls(p, n, s, x);
      FallsSafely(p, notes, s, FlowOn(i, n).note, s');
  }

  lemma StepFacts(p: seq<Insn>, notes: seq<Note>, s: Machine)
    requires Safe(p, notes, s) && s.status == Running && InsnOk(p, notes, {}, s.pc)
    ensures var n := notes[s.pc]; n.Note? && |n.regs| == NR_REGS && s.half == n.half && Holds(n, s)
    ensures FlowOn(p[s.pc], notes[s.pc]).To? && Weaker(FlowOn(p[s.pc], notes[s.pc]).note, notes[s.pc + 1])
    ensures p[s.pc].Ja? ==> FlowJump(p[s.pc], notes[s.pc]) == notes[s.pc]
  {
    hide FlowOn, Weaker, BooksHold;
  }

  /** Instructions that neither jump nor exit. */
  lemma StepFalls(p: seq<Insn>, n: Note, s: Machine, x: int)
    requires Holds(n, s) && 0 <= s.pc < |p| && FlowOn(p[s.pc], n).To? && !IsJump(p[s.pc]) && p[s.pc] != Exit
    ensures Holds(FlowOn(p[s.pc], n).note, Step(p, s, x)) && Step(p, s, x).pc == s.pc + 1
  {
    hide FlowLoad, FlowStore, FlowCall, StepLoad, StepStore, StepCall, BooksHold;
    match p[s.pc]
    case Ldx(_, _, _, _) => LoadSound(p, n, s, x);
    case Stx(size, d, r, o) =>
      assert HasType(n.regs[r], s.regs[r], s);
      StoreSound(n, s, size, d, o, n.regs[r], s.regs[r]);
    case St(size, d, o, v) => StoreSound(n, s, size, d, o, Number, Num(v));
    case Call(h) => CallSound(n, s, h, x);
    case _ => MoveSound(p, n, s, x);
  }

  /** Every run of a finished program, against every environment, is safe. */
  lemma {:induction false} RunIsSafe(p: seq<Insn>, notes: seq<Note>, s: Machine, xs: seq<int>)
    requires Complete(p, notes) && Shape(s) && Safe(p, notes, s)
    ensures Safe(p, notes, Run(p, s, xs))
    decreases |xs|
  {
    if xs != [] {
      StepIsSafe(p, notes, s, xs[0]);
      RunIsSafe(p, notes, Step(p, s, xs[0]), xs[1..]);
    }
  }

  // ----- Building typed programs ------------------------------------------------------------------

  ghost predicate NothingDue(debts: set<Debt>, pc: int) {
    forall d :: d in debts ==> d.target > pc
  }

  /** Appending an instruction that does not jump. */
  lemma AppendKeeps(p: seq<Insn>, notes: seq<Note>, debts: set<Debt>, i: Insn)
    requires Typed(p, notes, debts) && NothingDue(debts, |p|) && notes[|p|].Note? && !IsJump(i)
    requires FlowOn(i, notes[|p|]).To?
    ensures Typed(p + [i], notes + [FlowOn(i, notes[|p|]).note], debts)
  {
    var p', notes' := p + [i], notes + [FlowOn(i, notes[|p|]).note];
    FlowIsWell(i, notes[|p|]);
    WeakerRefl(notes'[|p'|]);
    forall pc | 0 <= pc < |p'| ensures InsnOk(p', notes', debts, pc) {
      if pc < |p| { OlderOk(p, notes, debts, i, FlowOn(i, notes[|p|]).note, debts, pc); }
    }
  }

  /** Appending a jump: back to a place whose note fits, or forward with a debt. */
  lemma AppendJumpKeeps(p: seq<Insn>, notes: seq<Note>, debts: set<Debt>, i: Insn, debts': set<Debt>)
    requires Typed(p, notes, debts) && NothingDue(debts, |p|) && notes[|p|].Note? && IsJump(i)
    requires FlowOn(i, notes[|p|]).To?
    requires var t := |p| + 1 + i.off; var m := FlowJump(i, notes[|p|]);
             if i.off >= 0 then debts' == debts + {Debt(t, m)} else debts' == debts && 0 <= t <= |p| && Weaker(m, notes[t])
    ensures Typed(p + [i], notes + [FlowOn(i, notes[|p|]).note], debts')
  {
    var p', notes' := p + [i], notes + [FlowOn(i, notes[|p|]).note];
    FlowIsWell(i, notes[|p|]);
    WeakerRefl(notes'[|p'|]);
    forall pc | 0 <= pc < |p'| ensures InsnOk(p', notes', debts', pc) {
      if pc < |p| { OlderOk(p, notes, debts, i, FlowOn(i, notes[|p|]).note, debts', pc); }
    }
  }

  lemma OlderOk(p: seq<Insn>, notes: seq<Note>, debts: set<Debt>, i: Insn, n: Note, debts': set<Debt>, pc: nat)
    requires Typed(p, notes, debts) && NothingDue(debts, |p|) && pc < |p| && debts <= debts'
    ensures InsnOk(p + [i], notes + [n], debts', pc)
  {
    hide FlowOn, FlowJump, Weaker, WellNote;
    assert InsnOk(p, notes, debts, pc);
  }

  lemma WeakerRefl(n: Note)
    requires WellNote(n)
    ensures Weaker(n, n)
  {
  }

  lemma FlowIsWell(i: Insn, n: Note)
    requires n.Note? && WellNote(n) && FlowOn(i, n).To?
    ensures WellNote(FlowOn(i, n).note)
  {
    hide FlowLoad, FlowStore, FlowCall;
    match i
    case Ldx(size, d, r, o) => LoadIsWell(n, size, d, r, o);
    case Stx(size, d, r, o) => StoreIsWell(n, size, d, o, n.regs[r]);
    case St(size, d, o, _) => StoreIsWell(n, size, d, o, Number);
    case Call(h) => CallIsWell(n, h);
    case _ =>
  }

  lemma LoadIsWell(n: Note, size: Size, d: nat, r: nat, off: int)
    requires n.Note? && WellNote(n) && FlowLoad(n, size, d, r, off).To?
    ensures WellNote(FlowLoad(n, size, d, r, off).note)
  {
  }

  lemma StoreIsWell(n: Note, size: Size, d: nat, off: int, t: RegType)
    requires n.Note? && WellNote(n) && WellType(t) && FlowStore(n, size, d, off, t).To?
    ensures WellNote(FlowStore(n, size, d, off, t).note)
  {
    assert |n.regs| == NR_REGS;
    hide WellRegs, WellBooks, StackStored, SlotStored, CtxStored, Forget;
    StrayedWell(n.books);
    match n.regs[d]
    case IsCtx => CtxStoredWell(n.books, off, t);
    case IsStack(base) =>
      if IsStackWord(size, base + off) {
        var i := StackWord(base + off);
        ForgetWell(n.regs, StackValue(i));
        StackStoredWell(n.books, i);
      }
    case IsBlob(base) =>
      if IsSlot(size, base + off) {
        var i := (base + off) / 4;
        ForgetWell(n.regs, SlotValue(i));
        SlotStoredWell(n.books, i);
      }
  }

  lemma StrayedWell(b: Books)
    requires WellBooks(b)
    ensures WellBooks(Strayed(b).(pend := false))
  {
  }

  lemma CtxStoredWell(b: Books, off: int, t: RegType)
    requires WellBooks(b) && WellType(t)
    ensures WellBooks(CtxStored(b, off, t))
  {
  }

  lemma StackStoredWell(b: Books, i: nat)
    requires WellBooks(b) && i < STACK_WORDS
    ensures WellBooks(StackStored(b, i))
  {
  }

  lemma SlotStoredWell(b: Books, i: nat)
    requires WellBooks(b) && i < MAX_USED_MAPS
    ensures WellBooks(SlotStored(b, i))
  {
  }

  lemma CallIsWell(n: Note, h: Helper)
    requires n.Note? && WellNote(n) && FlowCall(n, h).To?
    ensures WellNote(FlowCall(n, h).note)
  {
    CallRegsWell(n.regs, Number);
    ForgetWell(n.regs, LastResult);
    CallRegsWell(Forget(n.regs, LastResult), LastResult);
    hide CallRegs, Forget, IsNumeric, BufferType, WellRegs;
    if h.ProbeReadKernel? && n.regs[1].IsStack? { ZeroRegsWell(); }
  }

  lemma ZeroRegsWell()
    ensures WellRegs([Number, Unknown, Unknown, Unknown, Unknown, Unknown, IsCtx, Unknown, Unknown, Unknown, IsStack(0)])
  {
  }

  lemma CallRegsWell(regs: seq<RegType>, t: RegType)
    requires WellRegs(regs) && WellType(t)
    ensures WellRegs(CallRegs(regs, t))
  {
    var out := CallRegs(regs, t);
    forall r | 0 <= r < NR_REGS ensures WellType(out[r]) { if r >= 6 { assert out[r] == regs[r]; } }
  }

  lemma ForgetWell(regs: seq<RegType>, t: RegType)
    requires WellRegs(regs)
    ensures WellRegs(Forget(regs, t))
  {
    var out := Forget(regs, t);
    forall r | 0 <= r < NR_REGS ensures WellType(out[r]) { assert WellType(regs[r]); }
  }

  /** Where paths meet, the note may be weakened to one that fits them all. */
  lemma LandKeeps(p: seq<Insn>, notes: seq<Note>, debts: set<Debt>, m: Note, debts': set<Debt>)
    requires Typed(p, notes, debts) && |p| > 0 && WellNote(m) && Weaker(notes[|p|], m)
    requires forall d :: d in debts ==> if d.target == |p| then Weaker(d.note, m) else d in debts'
    ensures Typed(p, notes[|p| := m], debts')
  {
    var notes' := notes[|p| := m];
    forall pc | 0 <= pc < |p| ensures InsnOk(p, notes', debts', pc) {
      assert InsnOk(p, notes, debts, pc);
      LandKeepsAt(p, notes, debts, m, debts', pc);
    }
  }

  lemma LandKeepsAt(p: seq<Insn>, notes: seq<Note>, debts: set<Debt>, m: Note, debts': set<Debt>, pc: nat)
    requires Typed(p, notes, debts) && WellNote(m) && Weaker(notes[|p|], m) && pc < |p| && InsnOk(p, notes, debts, pc)
    requires forall d :: d in debts ==> if d.target == |p| then Weaker(d.note, m) else d in debts'
    ensures InsnOk(p, notes[|p| := m], debts', pc)
  {
    assert |notes| == |p| + 1 && notes[pc].Note? && |notes[pc].regs| == NR_REGS;
    hide FlowOn, FlowJump, Weaker, WellNote, Typed;
    var i, n := p[pc], notes[pc];
    if pc + 1 == |p| { WeakerTrans(FlowOn(i, n).note, notes[|p|], m); }
    if IsJump(i) && pc + 1 + i.off == |p| && Weaker(FlowJump(i, n), notes[|p|]) {
      WeakerTrans(FlowJump(i, n), notes[|p|], m);
    }
  }
}
