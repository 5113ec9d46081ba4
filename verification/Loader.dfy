/** The machine that runs generated loader programs. */
module Loader {
  import opened Numbers

  datatype Size = B | H | W | DW

  /** Looking up a weak symbol is optional: the loader goes on without it.  The mark is not part of the
      instruction; it says which failures have to be reported. */
  datatype Helper = ProbeReadKernel | CopyFromUser | SysBpf | SysClose | TracePrintk
                  | FindByNameKind(optional: bool) | KallsymsLookup

  datatype Cond = Jeq | Jne | Jset | Jslt | Jsle | Jsge

  /** A 64-bit immediate load takes two instruction slots; offsets are in slots, relative to the next one. */
  datatype Insn =
    | MovReg(dst: nat, src: nat)
    | MovImm(dst: nat, imm: int)
    | AddImm(dst: nat, imm: int)
    | Rsh(dst: nat, shift: nat)
    | And32(dst: nat, imm: int)
    | LoadBlob(dst: nat, addr: int)
    | LoadBlobHi
    | Ldx(size: Size, dst: nat, src: nat, off: int)
    | Stx(size: Size, dst: nat, src: nat, off: int)
    | St(size: Size, dst: nat, off: int, imm: int)
    | Jmp(cond: Cond, dst: nat, imm: int, off: int)
    | Ja(off: int)
    | Call(helper: Helper)
    | Exit

  const NR_REGS := 11

  /** The loader stack: BTF fd, inner map fd and 32 program fds, four bytes each. */
  const MAX_USED_PROGS := 32
  const STACK_WORDS := 2 + MAX_USED_PROGS
  const STACK_SZ := 4 * STACK_WORDS

  /** The blob starts with the fd array, whose first 64 entries are the map fds. */
  const MAX_USED_MAPS := 64
  const MAX_KFUNC_DESCS := 256
  const MAX_FD_ARRAY_SZ := MAX_USED_MAPS + MAX_KFUNC_DESCS
  const SLOTS_SZ := 4 * MAX_USED_MAPS

  const MAP_CREATE := 0
  const MAP_UPDATE_ELEM := 2
  const PROG_LOAD := 5
  const BTF_LOAD := 18
  const MAP_FREEZE := 22

  /** Commands that return a new file descriptor. */
  predicate Opens(cmd: int) { cmd == MAP_CREATE || cmd == PROG_LOAD || cmd == BTF_LOAD }

  // ----- The machine ------------------------------------------------------------------------------

  datatype Val = Num(v: int) | CtxPtr | StackPtr(off: int) | BlobPtr(off: int) | Junk

  datatype Status = Running | Exited(ret: int) | Fault

  /** What the loader asks the kernel for, and the answer. */
  datatype Request = Bpf(cmd: int) | Find(optional: bool) | Symbol

  datatype Answer = Answer(request: Request, res: int)

  /** ctx holds the words written to the context and live the descriptors opened by system calls and not
      closed since.  trace are the calls whose results are kept, in order.  last is the result of the last
      of them, failed the result of the last one whose failure has to be reported, or 0.  beyond says that
      some access was outside the loader's stack; the kernel does not let such a program run on
      (StrictStep). */
  datatype Machine = Machine(pc: int, half: bool, regs: seq<Val>, stack: seq<int>, slots: seq<int>, ctx: map<int, int>,
                             live: set<int>, trace: seq<Answer>, last: int, failed: int, beyond: bool, status: Status)

  /** The calls of a trace, without their answers. */
  function Requests(trace: seq<Answer>): (rs: seq<Request>)
    ensures |rs| == |trace| && forall i :: 0 <= i < |rs| ==> rs[i] == trace[i].request
  {
    seq(|trace|, i requires 0 <= i < |trace| => trace[i].request)
  }

  predicate OpensZero(a: Answer) { a.request.Bpf? && Opens(a.request.cmd) && a.res == 0 }

  /** Some call opened descriptor 0, which cannot be told from an empty place. */
  ghost predicate AnsweredZero(trace: seq<Answer>) {
    exists i :: 0 <= i < |trace| && OpensZero(trace[i])
  }

  function Signed32(x: int): (r: int)
    ensures -TWO31 <= r < TWO31
  {
    var m := x % TWO32;
    if m < TWO31 then m else m - TWO32
  }

  function Signed64(x: int): (r: int)
    ensures -TWO63 <= r < TWO63
  {
    var m := x % TWO64;
    if m < TWO63 then m else m - TWO64
  }

  function Loaded(size: Size, x: int): int {
    match size
    case B => x % 0x100
    case H => x % 0x1_0000
    case W => x % TWO32
    case DW => Signed64(x)
  }

  /** The stack word at a frame offset, if the offset is that of a word. */
  predicate IsStackWord(size: Size, off: int) { size == W && -STACK_SZ <= off < 0 && off % 4 == 0 }

  /** A word access outside the loader's stack. */
  predicate IsBeyond(size: Size, off: int) { size == W && off % 4 == 0 && !(-STACK_SZ <= off < 0) }

  function StackWord(off: int): int { (off + STACK_SZ) / 4 }

  predicate IsSlot(size: Size, addr: int) { size == W && 0 <= addr < SLOTS_SZ && addr % 4 == 0 }

  predicate IsElsewhere(addr: int) { addr >= SLOTS_SZ }

  predicate Shape(s: Machine) {
    |s.regs| == NR_REGS && |s.stack| == STACK_WORDS && |s.slots| == MAX_USED_MAPS
  }

  function Faulted(s: Machine): Machine { s.(status := Fault) }

  predicate ValidReg(r: nat) { r < NR_REGS }

  function Next(s: Machine, regs: seq<Val>): Machine { s.(pc := s.pc + 1, regs := regs) }

  function StepLoad(s: Machine, size: Size, dst: nat, src: nat, off: int, x: int): Machine
    requires Shape(s)
  {
    if !ValidReg(dst) || !ValidReg(src) then Faulted(s)
    else
      match s.regs[src]
      case CtxPtr => Next(s, s.regs[dst := Num(Loaded(size, x))])
      case StackPtr(base) =>
        if IsStackWord(size, base + off) then Next(s, s.regs[dst := Num(s.stack[StackWord(base + off)])])
        else if IsBeyond(size, base + off) then Next(s, s.regs[dst := Num(Loaded(size, x))]).(beyond := true)
        else Faulted(s)
      case BlobPtr(base) =>
        if IsSlot(size, base + off) then Next(s, s.regs[dst := Num(s.slots[(base + off) / 4])])
        else if IsElsewhere(base + off) then Next(s, s.regs[dst := Num(Loaded(size, x))])
        else Faulted(s)
      case _ => Faulted(s)
  }

  function StepStore(s: Machine, size: Size, dst: nat, off: int, v: Val): Machine
    requires Shape(s)
  {
    if !ValidReg(dst) || v == Junk then Faulted(s)
    else
      match s.regs[dst]
      case CtxPtr =>
        if size == W && off % 4 == 0 && v.Num? then Next(s, s.regs).(ctx := s.ctx[off := v.v % TWO32]) else Faulted(s)
      case StackPtr(base) =>
        if IsStackWord(size, base + off) && v.Num? then
          Next(s, s.regs).(stack := s.stack[StackWord(base + off) := v.v % TWO32])
        else if IsBeyond(size, base + off) && v.Num? then Next(s, s.regs).(beyond := true)
        else Faulted(s)
      case BlobPtr(base) =>
        if IsSlot(size, base + off) && v.Num? then Next(s, s.regs).(slots := s.slots[(base + off) / 4 := v.v % TWO32])
        else if IsElsewhere(base + off) then Next(s, s.regs)
        else Faulted(s)
      case _ => Faulted(s)
  }

  /** Registers after a call: R0 is the result, R1 to R5 are lost. */
  function AfterCall(regs: seq<Val>, r: int): (out: seq<Val>)
    requires |regs| == NR_REGS
    ensures |out| == NR_REGS
  {
    [Num(r), Junk, Junk, Junk, Junk, Junk] + regs[6..]
  }

  predicate IsBuffer(v: Val) { v.BlobPtr? && IsElsewhere(v.off) }

  /** A failure that the loader has to report: all of bpf(), lookups that are not optional, and symbol
      lookups other than of a symbol that does not exist. */
  predicate Reportable(q: Request, res: int) {
    res < 0 &&
    match q
    case Bpf(_) => true
    case Find(optional) => !optional
    case Symbol => res != ENOENT
  }

  /** The state after a call whose result is kept. */
  function WithResult(s: Machine, q: Request, res: int): Machine
    requires Shape(s)
  {
    Next(s, AfterCall(s.regs, res)).(last := res, failed := if Reportable(q, res) then res else s.failed,
                                     trace := s.trace + [Answer(q, res)])
  }

  function StepCall(s: Machine, h: Helper, x: int): Machine
    requires Shape(s)
  {
    var r := s.regs;
    match h
    case ProbeReadKernel =>
      if r[1] == StackPtr(-STACK_SZ) && r[2] == Num(STACK_SZ) && r[3] == Num(0) then
        Next(s, AfterCall(r, Signed64(x))).(stack := seq(STACK_WORDS, _ => 0))
      else if IsBuffer(r[1]) && r[2].Num? && r[3].Num? then Next(s, AfterCall(r, Signed64(x)))
      else Faulted(s)
    case CopyFromUser =>
      if IsBuffer(r[1]) && r[2].Num? && r[3].Num? then Next(s, AfterCall(r, Signed64(x))) else Faulted(s)
    case SysBpf =>
      if r[1].Num? && IsBuffer(r[2]) && r[3].Num? then
        var res := Signed32(x);
        WithResult(s, Bpf(r[1].v), res).(live := if res >= 0 && Opens(r[1].v) then s.live + {res} else s.live)
      else Faulted(s)
    case SysClose =>
      if r[1].Num? then Next(s, AfterCall(r, Signed64(x))).(live := s.live - {r[1].v}) else Faulted(s)
    case TracePrintk =>
      if r[1].BlobPtr? && r[2].Num? then Next(s, AfterCall(r, Signed64(x))) else Faulted(s)
    case FindByNameKind(optional) =>
      if r[1].BlobPtr? && r[2].Num? && r[3].Num? && r[4].Num? then WithResult(s, Find(optional), Signed64(x)) else Faulted(s)
    case KallsymsLookup =>
      if r[1].BlobPtr? && r[2].Num? && r[3].Num? && IsBuffer(r[4]) then WithResult(s, Symbol, Signed64(x)) else Faulted(s)
  }

  /** Whether a conditional jump is taken; bit tests are left to the input. */
  predicate Taken(c: Cond, v: int, imm: int, x: int) {
    match c
    case Jeq => v == imm
    case Jne => v != imm
    case Jset => x % 2 == 1
    case Jslt => v < imm
    case Jsle => v <= imm
    case Jsge => v >= imm
  }

  /** One step; x stands for whatever the environment contributes to it. */
  function Step(p: seq<Insn>, s: Machine, x: int): (s': Machine)
    requires Shape(s)
    ensures Shape(s')
  {
    if s.status != Running then s
    else if !(0 <= s.pc < |p|) || s.half != p[s.pc].LoadBlobHi? then Faulted(s)
    else
      match p[s.pc]
      case MovReg(d, r) =>
        if ValidReg(d) && ValidReg(r) && s.regs[r] != Junk then Next(s, s.regs[d := s.regs[r]]) else Faulted(s)
      case MovImm(d, i) => if ValidReg(d) then Next(s, s.regs[d := Num(i)]) else Faulted(s)
      case AddImm(d, i) =>
        if ValidReg(d) && s.regs[d].StackPtr? then Next(s, s.regs[d := StackPtr(s.regs[d].off + i)]) else Faulted(s)
      case Rsh(d, k) =>
        if ValidReg(d) && s.regs[d].Num? && k == 32 then Next(s, s.regs[d := Num(s.regs[d].v % TWO64 / TWO32)]) else Faulted(s)
      case And32(d, _) =>
        if ValidReg(d) && s.regs[d].Num? then Next(s, s.regs[d := Num(Loaded(W, x))]) else Faulted(s)
      case LoadBlob(d, a) => if ValidReg(d) then Next(s, s.regs[d := BlobPtr(a)]).(half := true) else Faulted(s)
      case LoadBlobHi => Next(s, s.regs).(half := false)
      case Ldx(size, d, r, o) => StepLoad(s, size, d, r, o, x)
      case Stx(size, d, r, o) => if ValidReg(r) then StepStore(s, size, d, o, s.regs[r]) else Faulted(s)
      case St(size, d, o, i) => StepStore(s, size, d, o, Num(i))
      case Jmp(c, d, i, o) =>
        if !ValidReg(d) || !s.regs[d].Num? then Faulted(s)
        else if Taken(c, s.regs[d].v, i, x) then s.(pc := s.pc + 1 + o) else s.(pc := s.pc + 1)
      case Ja(o) => s.(pc := s.pc + 1 + o)
      case Call(h) => StepCall(s, h, x)
      case Exit => if s.regs[0].Num? then s.(status := Exited(s.regs[0].v)) else Faulted(s)
  }

  /** The state after as many steps as there are inputs. */
  function Run(p: seq<Insn>, s: Machine, xs: seq<int>): (s': Machine)
    requires Shape(s)
    ensures Shape(s')
    decreases |xs|
  {
    if xs == [] then s else Run(p, Step(p, s, xs[0]), xs[1..])
  }

  /** A step of the real machine, which stops at an access outside the loader's stack. */
  function StrictStep(p: seq<Insn>, s: Machine, x: int): (s': Machine)
    requires Shape(s)
    ensures Shape(s')
  {
    if s.status != Running then s
    else
      var s' := Step(p, s, x);
      if s'.beyond then Faulted(s') else s'
  }

  function StrictRun(p: seq<Insn>, s: Machine, xs: seq<int>): (s': Machine)
    requires Shape(s)
    ensures Shape(s')
    decreases |xs|
  {
    if xs == [] then s else StrictRun(p, StrictStep(p, s, xs[0]), xs[1..])
  }

  /** How a loader starts: R1 holds the context, R10 the frame pointer. */
  predicate Boots(s: Machine) {
    && Shape(s) && s.pc == 0 && !s.half && s.status == Running && s.live == {} && s.ctx == map[] && s.trace == []
    && s.failed == 0 && !s.beyond && -TWO63 <= s.last < TWO63
    && s.regs == [Junk, CtxPtr, Junk, Junk, Junk, Junk, Junk, Junk, Junk, Junk, StackPtr(0)]
    && (forall i :: 0 <= i < STACK_WORDS ==> 0 <= s.stack[i] < TWO32)
    && (forall i :: 0 <= i < MAX_USED_MAPS ==> 0 <= s.slots[i] < TWO32)
  }
}
