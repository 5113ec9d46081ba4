/** Whole runs of generated loaders: they end, and a failed call is reported with everything closed. */
module LoaderRuns {
  import opened Loader
  import opened LoaderTypes

  /** Calls whose result the loader keeps. */
  predicate SetsResult(i: Insn) {
    i.Call? && (i.helper == SysBpf || i.helper.FindByNameKind? || i.helper == KallsymsLookup)
  }

  /** A jump inside the cleanup block stays inside it. */
  predicate CleanupInsnOk(p: seq<Insn>, end: nat, pc: nat)
    requires pc < |p|
  {
    (IsJump(p[pc]) ==> p[pc].off >= 0 && pc + 1 + p[pc].off < end) && !SetsResult(p[pc]) && (p[pc].Exit? ==> pc == end - 1)
  }

  /** Outside the cleanup block jumps go forward or to its start. */
  predicate MainInsnOk(p: seq<Insn>, cleanup: nat, pc: nat)
    requires pc < |p|
  {
    IsJump(p[pc]) ==> p[pc].off >= 0 || pc + 1 + p[pc].off == cleanup
  }

  /** The shape of a loader: straight initialisation, a jump over exactly the cleanup block, the cleanup
      block, and the commands. */
  ghost predicate Layout(p: seq<Insn>, cleanup: nat, end: nat) {
    && 0 < cleanup < end <= |p| && p[cleanup - 1] == Ja(end - cleanup) && p[end - 1] == Exit
    && (forall pc :: 0 <= pc < cleanup - 1 ==> !IsJump(p[pc]))
    && (forall pc :: cleanup <= pc < end ==> CleanupInsnOk(p, end, pc))
    && (forall pc :: end <= pc < |p| ==> MainInsnOk(p, cleanup, pc))
  }

  lemma LayoutMore(p: seq<Insn>, cleanup: nat, end: nat, i: Insn)
    requires Layout(p, cleanup, end) && (IsJump(i) ==> i.off >= 0 || |p| + 1 + i.off == cleanup)
    ensures Layout(p + [i], cleanup, end)
  {
    var p' := p + [i];
    forall pc | 0 <= pc < cleanup - 1 ensures !IsJump(p'[pc]) { assert p'[pc] == p[pc]; }
    forall pc | cleanup <= pc < end ensures CleanupInsnOk(p', end, pc) { assert CleanupInsnOk(p, end, pc) && p'[pc] == p[pc]; }
    forall pc | end <= pc < |p'| ensures MainInsnOk(p', cleanup, pc) {
      if pc < |p| { assert MainInsnOk(p, cleanup, pc) && p'[pc] == p[pc]; }
    }
  }

  /** The instruction that leaves for the cleanup block when the last call failed. */
  predicate ChecksError(p: seq<Insn>, cleanup: nat, pc: int) {
    0 <= pc < |p| && p[pc].Jmp? && p[pc].cond == Jslt && p[pc].dst == 7 && p[pc].imm == 0 && pc + 1 + p[pc].off == cleanup
  }

  // ----- Every run ends ---------------------------------------------------------------------------

  /** A bound on the number of steps left. */
  function Distance(len: int, cleanup: nat, end: nat, pc: int): int {
    if cleanup <= pc < end then end - pc else end - cleanup + 1 + (len - pc)
  }

  lemma StepCloser(p: seq<Insn>, notes: seq<Note>, cleanup: nat, end: nat, s: Machine, x: int)
    requires Complete(p, notes) && Layout(p, cleanup, end) && Shape(s) && Safe(p, notes, s) && s.status == Running
    requires Step(p, s, x).status == Running
    ensures Safe(p, notes, Step(p, s, x))
    ensures 0 <= Distance(|p|, cleanup, end, Step(p, s, x).pc) < Distance(|p|, cleanup, end, s.pc)
  {
    StepIsSafe(p, notes, s, x);
    hide Complete, Typed, Holds, Shape;
    StepTarget(p, s, x);
    if cleanup <= s.pc < end {
      assert CleanupInsnOk(p, end, s.pc);
    } else if end <= s.pc {
      assert MainInsnOk(p, cleanup, s.pc);
    }
  }

  /** What loads, stores and calls leave alone. */
  ghost predicate Framed(s: Machine, s': Machine) {
    && (s'.status == Running ==> s'.pc == s.pc + 1) && !s'.status.Exited? && s'.failed == s.failed && (s.beyond ==> s'.beyond)
    && s'.trace == s.trace
  }

  lemma LoadFrame(s: Machine, size: Size, d: nat, r: nat, off: int, x: int)
    requires Shape(s) && s.status == Running
    ensures Framed(s, StepLoad(s, size, d, r, off, x))
  {
  }

  lemma StoreFrame(s: Machine, size: Size, d: nat, off: int, v: Val)
    requires Shape(s) && s.status == Running
    ensures Framed(s, StepStore(s, size, d, off, v))
  {
  }

  lemma CallFrame(s: Machine, h: Helper, x: int)
    requires Shape(s) && s.status == Running
    ensures var s' := StepCall(s, h, x);
            && Framed(s, s'.(failed := s.failed, trace := s.trace)) && (!SetsResult(Call(h)) ==> s'.failed == s.failed)
            && (s'.trace == s.trace || (SetsResult(Call(h)) && AnswersTo(s, h, s'.trace, Received(h, x))))
  {
    hide Signed32, Signed64, Reportable, AfterCall, Opens;
    if SetsResult(Call(h)) { ResultFrame(s, h, x); } else { PlainFrame(s, h, x); }
  }

  lemma PlainFrame(s: Machine, h: Helper, x: int)
    requires Shape(s) && s.status == Running && !SetsResult(Call(h))
    ensures Framed(s, StepCall(s, h, x))
  {
    hide Signed64, AfterCall;
  }

  lemma ResultFrame(s: Machine, h: Helper, x: int)
    requires Shape(s) && s.status == Running && SetsResult(Call(h))
    ensures var s' := StepCall(s, h, x);
            Framed(s, s'.(failed := s.failed, trace := s.trace)) && (s'.trace == s.trace || AnswersTo(s, h, s'.trace, Received(h, x)))
  {
    hide Signed32, Signed64, Reportable, AfterCall;
  }

  /** What the loader gets to see of an answer. */
  function Received(h: Helper, x: int): int { if h == SysBpf then Signed32(x) else Signed64(x) }

  /** The request that a call makes. */
  function RequestOf(s: Machine, h: Helper): Request
    requires Shape(s)
  {
    match h
    case SysBpf => Bpf(if s.regs[1].Num? then s.regs[1].v else 0)
    case FindByNameKind(optional) => Find(optional)
    case _ => Symbol
  }

  ghost predicate AnswersTo(s: Machine, h: Helper, trace: seq<Answer>, res: int)
    requires Shape(s)
  {
    trace == s.trace + [Answer(RequestOf(s, h), res)]
  }

  /** Where a step goes and what it keeps. */
  lemma StepTarget(p: seq<Insn>, s: Machine, x: int)
    requires Shape(s) && s.status == Running && 0 <= s.pc < |p|
    ensures var i, s' := p[s.pc], Step(p, s, x);
            && (s'.status == Running ==>
                  && !i.Exit? && (s'.pc == s.pc + 1 || (IsJump(i) && s'.pc == s.pc + 1 + i.off))
                  && (i.Ja? ==> s'.pc == s.pc + 1 + i.off))
            && (!SetsResult(i) ==> s'.failed == s.failed) && (s.beyond ==> s'.beyond)
            && (s'.trace == s.trace || (SetsResult(i) && AnswersTo(s, i.helper, s'.trace, Received(i.helper, x))))
  {
    hide Received, RequestOf;
    hide StepLoad, StepStore, StepCall, Loaded;
    match p[s.pc]
    case Ldx(size, d, r, o) => LoadFrame(s, size, d, r, o, x);
    case Stx(size, d, r, o) => if ValidReg(r) { StoreFrame(s, size, d, o, s.regs[r]); }
    case St(size, d, o, i) => StoreFrame(s, size, d, o, Num(i));
    case Call(h) => CallFrame(s, h, x);
    case _ =>
  }

  lemma {:induction false} RunEnds(p: seq<Insn>, notes: seq<Note>, cleanup: nat, end: nat, s: Machine, xs: seq<int>)
    requires Complete(p, notes) && Layout(p, cleanup, end) && Shape(s) && Safe(p, notes, s)
    requires s.status == Running ==> |xs| >= Distance(|p|, cleanup, end, s.pc)
    ensures Safe(p, notes, Run(p, s, xs)) && Run(p, s, xs).status.Exited?
    decreases |xs|
  {
    hide Complete, Layout, Safe, Shape, Step;
    if s.status != Running {
      Halted(p, notes, s, xs);
    } else {
      SomeWayToGo(p, notes, cleanup, end, s);
      StepOrEnd(p, notes, cleanup, end, s, xs[0]);
      RunEnds(p, notes, cleanup, end, Step(p, s, xs[0]), xs[1..]);
    }
  }

  lemma SomeWayToGo(p: seq<Insn>, notes: seq<Note>, cleanup: nat, end: nat, s: Machine)
    requires Layout(p, cleanup, end) && Safe(p, notes, s) && s.status == Running
    ensures Distance(|p|, cleanup, end, s.pc) > 0
  {
  }

  lemma StepOrEnd(p: seq<Insn>, notes: seq<Note>, cleanup: nat, end: nat, s: Machine, x: int)
    requires Complete(p, notes) && Layout(p, cleanup, end) && Shape(s) && Safe(p, notes, s) && s.status == Running
    ensures Safe(p, notes, Step(p, s, x)) && 0 < Distance(|p|, cleanup, end, s.pc)
    ensures Step(p, s, x).status == Running ==> Distance(|p|, cleanup, end, Step(p, s, x).pc) < Distance(|p|, cleanup, end, s.pc)
  {
    hide Complete, Typed, Holds, Step;
    StepIsSafe(p, notes, s, x);
    if Step(p, s, x).status == Running { StepCloser(p, notes, cleanup, end, s, x); }
  }

  lemma {:induction false} Halted(p: seq<Insn>, notes: seq<Note>, s: Machine, xs: seq<int>)
    requires Shape(s) && s.status != Running && Safe(p, notes, s)
    ensures Run(p, s, xs) == s && s.status.Exited?
    decreases |xs|
  {
    if xs != [] { Halted(p, notes, s, xs[1..]); }
  }

  // ----- Failures are kept ------------------------------------------------------------------------

  /** The machine is about to make a call that fails with res and has to be reported. */
  ghost predicate Fails(p: seq<Insn>, s: Machine, x: int, res: int)
    requires Shape(s)
  {
    && s.status == Running && 0 <= s.pc < |p| && SetsResult(p[s.pc]) && Reportable(RequestOf(s, p[s.pc].helper), res)
    && AnswersTo(s, p[s.pc].helper, Step(p, s, x).trace, res)
  }

  lemma FailureIsSeen(p: seq<Insn>, s: Machine, x: int, res: int)
    requires Shape(s) && Fails(p, s, x, res)
    ensures Step(p, s, x).failed == res < 0
  {
    var h := p[s.pc].helper;
    var s' := StepCall(s, h, x);
    assert s'.trace != s.trace;
    assert s'.trace[|s.trace|] == Answer(RequestOf(s, h), res);
  }

  /** No further call whose result is kept is made once a failure has to be reported. */
  lemma StepKeepsFailure(p: seq<Insn>, notes: seq<Note>, s: Machine, x: int)
    requires Complete(p, notes) && Shape(s) && Safe(p, notes, s) && s.failed != 0
    ensures Step(p, s, x).failed == s.failed
  {
    if s.status == Running {
      assert InsnOk(p, notes, {}, s.pc);
      hide Complete, Typed, Step, Weaker;
      if SetsResult(p[s.pc]) { CallsAreSettled(p, notes, s); }
      StepTarget(p, s, x);
    }
  }

  lemma CallsAreSettled(p: seq<Insn>, notes: seq<Note>, s: Machine)
    requires Safe(p, notes, s) && s.status == Running && InsnOk(p, notes, {}, s.pc) && SetsResult(p[s.pc])
    ensures s.failed == 0
  {
    assert Settled(notes[s.pc].books);
    assert OwesOk(notes[s.pc].books, s);
  }

  lemma {:induction false} RunKeepsFailure(p: seq<Insn>, notes: seq<Note>, s: Machine, xs: seq<int>)
    requires Complete(p, notes) && Shape(s) && Safe(p, notes, s) && s.failed != 0
    ensures Run(p, s, xs).failed == s.failed
    decreases |xs|
  {
    hide Complete, Safe, Shape, Step;
    if xs != [] {
      StepKeepsFailure(p, notes, s, xs[0]);
      StepIsSafe(p, notes, s, xs[0]);
      RunKeepsFailure(p, notes, Step(p, s, xs[0]), xs[1..]);
    }
  }

  lemma {:induction false} RunAppend(p: seq<Insn>, s: Machine, xs: seq<int>, ys: seq<int>)
    requires Shape(s)
    ensures Run(p, s, xs + ys) == Run(p, Run(p, s, xs), ys)
    decreases |xs|
  {
    hide Step;
    if xs == [] {
      assert xs + ys == ys;
    } else {
      assert (xs + ys)[0] == xs[0] && (xs + ys)[1..] == xs[1..] + ys;
      RunAppend(p, Step(p, s, xs[0]), xs[1..], ys);
    }
  }

  lemma RunOne(p: seq<Insn>, s: Machine, x: int)
    requires Shape(s)
    ensures Run(p, s, [x]) == Step(p, s, x)
  {
    hide Step;
    assert Run(p, s, [x]) == Run(p, Step(p, s, [x][0]), [x][1..]);
  }

  // ----- Accesses outside the stack ---------------------------------------------------------------

  lemma BeyondStays(p: seq<Insn>, s: Machine, x: int)
    requires Shape(s) && s.beyond
    ensures Step(p, s, x).beyond
  {
    hide StepLoad, StepStore, StepCall;
    if s.status == Running && 0 <= s.pc < |p| { StepTarget(p, s, x); }
  }

  lemma {:induction false} RunStaysBeyond(p: seq<Insn>, s: Machine, xs: seq<int>)
    requires Shape(s) && s.beyond
    ensures Run(p, s, xs).beyond
    decreases |xs|
  {
    hide Step;
    if xs != [] {
      BeyondStays(p, s, xs[0]);
      RunStaysBeyond(p, Step(p, s, xs[0]), xs[1..]);
    }
  }

  lemma {:induction false} StrictStays(p: seq<Insn>, s: Machine, xs: seq<int>)
    requires Shape(s) && s.status != Running
    ensures StrictRun(p, s, xs) == s
    decreases |xs|
  {
    hide Step;
    if xs != [] { StrictStays(p, s, xs[1..]); }
  }

  /** The real machine makes the same run, or stops at the first access outside the stack. */
  lemma {:induction false} StrictAgrees(p: seq<Insn>, s: Machine, xs: seq<int>)
    requires Shape(s) && !s.beyond && s.status != Fault
    ensures Run(p, s, xs).beyond ==> StrictRun(p, s, xs).status == Fault
    ensures !Run(p, s, xs).beyond ==> StrictRun(p, s, xs) == Run(p, s, xs)
    decreases |xs|
  {
    hide Step;
    if xs != [] {
      var s1 := Step(p, s, xs[0]);
      if s.status != Running {
        assert s1 == s by { StepHalted(p, s, xs[0]); }
        StrictAgrees(p, s, xs[1..]);
      } else if s1.beyond {
        RunStaysBeyond(p, s1, xs[1..]);
        StrictStays(p, Faulted(s1), xs[1..]);
      } else if s1.status == Fault {
        StrictStays(p, s1, xs[1..]);
        RunHalted(p, s1, xs[1..]);
      } else {
        StrictAgrees(p, s1, xs[1..]);
      }
    }
  }

  lemma StepHalted(p: seq<Insn>, s: Machine, x: int)
    requires Shape(s) && s.status != Running
    ensures Step(p, s, x) == s
  {
  }

  lemma {:induction false} RunHalted(p: seq<Insn>, s: Machine, xs: seq<int>)
    requires Shape(s) && s.status != Running
    ensures Run(p, s, xs) == s
    decreases |xs|
  {
    hide Step;
    if xs != [] {
      StepHalted(p, s, xs[0]);
      RunHalted(p, s, xs[1..]);
    }
  }

  // ----- What a generated loader does -------------------------------------------------------------

  /** A finished loader for a number of announced and of loaded programs.  Its two exits are the one of the
      cleanup block and the last instruction; each tells whether the way there leaves the stack, and the
      last one what has been asked on every way to it. */
  ghost predicate Finished(p: seq<Insn>, notes: seq<Note>, cleanup: nat, end: nat, announced: nat, loaded: nat, requests: seq<Request>) {
    && Complete(p, notes) && Layout(p, cleanup, end) && end < |p| && p[|p| - 1] == Exit
    && (forall pc :: 0 <= pc < |p| && p[pc] == Exit ==> pc == end - 1 || pc == |p| - 1)
    && ExitNote(notes[end - 1], true, announced) && ExitNote(notes[|p| - 1], false, loaded)
    && notes[|p| - 1].books.asked == Exactly(requests)
  }

  ghost predicate ExitNote(n: Note, neg: bool, progs: nat) {
    n.Note? && n.books.neg == neg && n.books.must == (progs > MAX_USED_PROGS)
  }

  /** What stays open after a failure: descriptor 0 if some call opened it, and nothing else. */
  ghost function LeftOpen(trace: seq<Answer>): set<int> { if AnsweredZero(trace) then {0} else {} }

  /** Every run of a finished loader, for every pattern of answers.  It leaves the stack exactly when more
      than 32 programs were announced and a call fails, or more than 32 were loaded.  Otherwise it returns
      the result of the one call whose failure has to be reported, with nothing left open but descriptor 0,
      and that exactly if some call opened it, or it returns 0 with every request made in order, none of
      them failed, and every open descriptor handed over. */
  lemma LoaderOutcome(p: seq<Insn>, notes: seq<Note>, cleanup: nat, end: nat, announced: nat, loaded: nat, requests: seq<Request>,
                      s: Machine, xs: seq<int>)
    requires Finished(p, notes, cleanup, end, announced, loaded, requests) && Boots(s) && |xs| >= 2 * |p| + 1
    ensures var t, u := Run(p, s, xs), StrictRun(p, s, xs);
            && (u.status == Fault <==> if t.failed < 0 then announced > MAX_USED_PROGS else loaded > MAX_USED_PROGS)
            && (u.status != Fault ==> u == t && t.status == Exited(t.failed) && t.failed <= 0)
            && (u.status != Fault && t.failed < 0 ==> t.live == LeftOpen(t.trace))
            && (u.status != Fault && t.failed == 0 ==> Delivered(t))
            && (t.failed == 0 ==> Requests(t.trace) == requests && Recorded(t))
  {
    var t := Run(p, s, xs);
    BootDistance(p, cleanup, end, s);
    hide Complete, Layout, Run, StrictRun, Safe, Boots, Shape, ExitNote, Delivered, Recorded, LeftOpen, Requests;
    BootIsSafe(p, notes, s);
    RunEnds(p, notes, cleanup, end, s, xs);
    OutcomeOf(p, notes, cleanup, end, announced, loaded, requests, t);
    StrictAgrees(p, s, xs);
  }

  lemma BootDistance(p: seq<Insn>, cleanup: nat, end: nat, s: Machine)
    requires Layout(p, cleanup, end) && Boots(s)
    ensures Shape(s) && !s.beyond && s.status == Running && Distance(|p|, cleanup, end, s.pc) <= 2 * |p| + 1
  {
  }

  lemma OutcomeOf(p: seq<Insn>, notes: seq<Note>, cleanup: nat, end: nat, announced: nat, loaded: nat, requests: seq<Request>, t: Machine)
    requires Finished(p, notes, cleanup, end, announced, loaded, requests) && Safe(p, notes, t) && t.status.Exited?
    ensures t.beyond <==> if t.failed < 0 then announced > MAX_USED_PROGS else loaded > MAX_USED_PROGS
    ensures t.status == Exited(t.failed) && t.failed <= 0
    ensures !t.beyond && t.failed < 0 ==> t.live == LeftOpen(t.trace)
    ensures !t.beyond && t.failed == 0 ==> Delivered(t)
    ensures t.failed == 0 ==> Requests(t.trace) == requests && Recorded(t) && LogHolds(notes[|p| - 1].books, t) && OutOk(notes[|p| - 1].books, t)
  {
    hide Complete, Layout, Delivered, OutOk, Shape, HeldOk, AnsweredZero, Requests, Reportable;
  }

  /** A call whose failure has to be reported fails: the loader closes everything and returns its result. */
  lemma FailedCallIsReported(p: seq<Insn>, notes: seq<Note>, cleanup: nat, end: nat, announced: nat, loaded: nat, requests: seq<Request>,
                             s: Machine, xs: seq<int>, x: int, ys: seq<int>, res: int)
    requires Finished(p, notes, cleanup, end, announced, loaded, requests) && announced <= MAX_USED_PROGS && Boots(s)
    requires Fails(p, Run(p, s, xs), x, res) && |ys| >= 2 * |p| + 1
    ensures var u := StrictRun(p, s, xs + [x] + ys); u.status == Exited(res) && u.live == LeftOpen(u.trace)
  {
    BootDistance(p, cleanup, end, s);
    hide Complete, Layout, Run, StrictRun, Step, Fails, Safe, Boots, Shape, Delivered, LeftOpen, Recorded, Requests;
    var s1 := Run(p, s, xs);
    var s2 := Step(p, s1, x);
    BootIsSafe(p, notes, s);
    RunIsSafe(p, notes, s, xs);
    StepIsSafe(p, notes, s1, x);
    FailureIsSeen(p, s1, x, res);
    RunKeepsFailure(p, notes, s2, ys);
    RunAppend(p, s, xs, [x]);
    RunAppend(p, s, xs + [x], ys);
    RunOne(p, s1, x);
    LoaderOutcome(p, notes, cleanup, end, announced, loaded, requests, s, xs + [x] + ys);
  }

  /** With more than 32 programs loaded no run survives; with more than 32 announced none in which a call
      fails that has to be reported. */
  lemma ThirtyThreePrograms(p: seq<Insn>, notes: seq<Note>, cleanup: nat, end: nat, announced: nat, loaded: nat, requests: seq<Request>,
                            s: Machine, xs: seq<int>)
    requires Finished(p, notes, cleanup, end, announced, loaded, requests) && loaded <= announced && announced >= 33
    requires Boots(s) && |xs| >= 2 * |p| + 1
    ensures loaded >= 33 || Run(p, s, xs).failed < 0 <==> StrictRun(p, s, xs).status == Fault
  {
    hide Finished, Boots, Run, StrictRun, Delivered, Recorded, LeftOpen, Requests;
    LoaderOutcome(p, notes, cleanup, end, announced, loaded, requests, s, xs);
  }

  /** A run that returns 0 ends at the last instruction, and what its note says was copied into the context
      and where answers are is so. */
  lemma SuccessIsLast(p: seq<Insn>, notes: seq<Note>, cleanup: nat, end: nat, announced: nat, loaded: nat, requests: seq<Request>,
                      s: Machine, xs: seq<int>)
    requires Finished(p, notes, cleanup, end, announced, loaded, requests) && Boots(s) && |xs| >= 2 * |p| + 1
    requires StrictRun(p, s, xs).status == Exited(0)
    ensures var u := StrictRun(p, s, xs);
            && notes[|p| - 1].Note? && OutOk(notes[|p| - 1].books, u) && LogHolds(notes[|p| - 1].books, u)
            && Delivered(u) && Recorded(u) && u.failed == 0 && Requests(u.trace) == requests && loaded <= MAX_USED_PROGS
  {
    hide Complete, Layout, Run, StrictRun, Boots, Shape, Delivered, OutOk, ExitNote, Safe, Recorded, LeftOpen, Requests, LogHolds;
    LoaderOutcome(p, notes, cleanup, end, announced, loaded, requests, s, xs);
    BootShape(s);
    BootIsSafe(p, notes, s);
    RunIsSafe(p, notes, s, xs);
    OutcomeOf(p, notes, cleanup, end, announced, loaded, requests, Run(p, s, xs));
    HasExitNote(notes[|p| - 1], false, loaded);
  }

  lemma HasExitNote(n: Note, neg: bool, progs: nat)
    requires ExitNote(n, neg, progs)
    ensures n.Note?
  {
  }

  lemma NotesCover(p: seq<Insn>, notes: seq<Note>)
    requires Complete(p, notes)
    ensures |notes| == |p| + 1 && |p| > 0
  {
  }

  lemma BootShape(s: Machine)
    requires Boots(s)
    ensures Shape(s)
  {
  }

  // ----- Descriptor 0 -----------------------------------------------------------------------------

  lemma StepTrace(p: seq<Insn>, s: Machine, x: int)
    requires Shape(s)
    ensures var s' := Step(p, s, x);
            s'.trace == s.trace ||
            (s.status == Running && 0 <= s.pc < |p| && SetsResult(p[s.pc]) && AnswersTo(s, p[s.pc].helper, s'.trace, Received(p[s.pc].helper, x)))
  {
    hide StepLoad, StepStore, StepCall, AnswersTo, Received;
    if s.status == Running && 0 <= s.pc < |p| { StepTarget(p, s, x); }
  }

  /** Traces only grow. */
  lemma {:induction false} TraceGrows(p: seq<Insn>, s: Machine, xs: seq<int>)
    requires Shape(s)
    ensures s.trace <= Run(p, s, xs).trace
    decreases |xs|
  {
    hide Step, Received, RequestOf;
    if xs != [] {
      StepTrace(p, s, xs[0]);
      TraceGrows(p, Step(p, s, xs[0]), xs[1..]);
    }
  }

  /** The step at which a run makes its call number j. */
  lemma {:induction false} CallAt(p: seq<Insn>, s: Machine, xs: seq<int>, j: nat) returns (k: nat)
    requires Shape(s) && |s.trace| <= j < |Run(p, s, xs).trace|
    ensures k < |xs| && |Run(p, s, xs[..k]).trace| == j && |Step(p, Run(p, s, xs[..k]), xs[k]).trace| == j + 1
    decreases |xs|
  {
    hide Step, Received, RequestOf;
    var s1 := Step(p, s, xs[0]);
    StepTrace(p, s, xs[0]);
    if |s1.trace| > j {
      assert xs[..0] == [];
      k := 0;
    } else {
      var k1 := CallAt(p, s1, xs[1..], j);
      k := k1 + 1;
      assert xs[..k][0] == xs[0] && xs[..k][1..] == xs[1..][..k1] && xs[1..][k1] == xs[k];
    }
  }

  /** Every call so far was answered with 0. */
  ghost predicate AllZero(s: Machine) { s.failed == 0 && forall i :: 0 <= i < |s.trace| ==> s.trace[i].res == 0 }

  lemma ZeroStep(p: seq<Insn>, s: Machine)
    requires Shape(s) && AllZero(s)
    ensures AllZero(Step(p, s, 0))
  {
    var s' := Step(p, s, 0);
    StepTrace(p, s, 0);
    ZeroFails(p, s);
    hide Step, RequestOf;
    forall i | 0 <= i < |s'.trace| ensures s'.trace[i].res == 0 {
      if i < |s.trace| { assert s'.trace[i] == s.trace[i]; }
    }
  }

  lemma ZeroFails(p: seq<Insn>, s: Machine)
    requires Shape(s) && s.failed == 0
    ensures Step(p, s, 0).failed == 0
  {
    hide StepLoad, StepStore;
    if s.status == Running && 0 <= s.pc < |p| { StepTarget(p, s, 0); }
  }

  lemma {:induction false} ZeroRun(p: seq<Insn>, s: Machine, xs: seq<int>)
    requires Shape(s) && AllZero(s) && forall i :: 0 <= i < |xs| ==> xs[i] == 0
    ensures AllZero(Run(p, s, xs))
    decreases |xs|
  {
    hide Step, AllZero;
    if xs != [] {
      ZeroStep(p, s);
      ZeroRun(p, Step(p, s, xs[0]), xs[1..]);
    }
  }

  /** A call that is made with one answer is made with every other. */
  lemma CallFails(p: seq<Insn>, s: Machine, q: Request)
    requires Shape(s) && |Step(p, s, 0).trace| == |s.trace| + 1 && Step(p, s, 0).trace[|s.trace|].request == q && Reportable(q, -1)
    ensures Fails(p, s, -1, -1)
  {
    StepTrace(p, s, 0);
    CallWith(s, p[s.pc].helper);
  }

  lemma CallWith(s: Machine, h: Helper)
    requires Shape(s) && StepCall(s, h, 0).trace != s.trace
    ensures AnswersTo(s, h, StepCall(s, h, -1).trace, -1)
  {
  }

  /** Descriptor 0 can stay open: for every finished loader that opens a descriptor and makes a call later
      whose failure has to be reported, some run returns an error and leaves exactly 0 open. */
  lemma ZeroStaysOpen(p: seq<Insn>, notes: seq<Note>, cleanup: nat, end: nat, announced: nat, loaded: nat, requests: seq<Request>,
                      s: Machine, i: nat, j: nat) returns (xs: seq<int>)
    requires Finished(p, notes, cleanup, end, announced, loaded, requests) && announced <= MAX_USED_PROGS && Boots(s)
    requires i < j < |requests| && requests[i].Bpf? && Opens(requests[i].cmd) && Reportable(requests[j], -1)
    ensures var u := StrictRun(p, s, xs); u.status == Exited(-1) && u.live == {0}
  {
    hide Finished, Boots, Run, StrictRun, Step, Delivered, Recorded, Fails, AnsweredZero;
    BootShape(s);
    BootZero(s);
    var zeros := seq(2 * |p| + 1, _ => 0);
    LoaderOutcome(p, notes, cleanup, end, announced, loaded, requests, s, zeros);
    ZeroRun(p, s, zeros);
    var k := CallAt(p, s, zeros, j);
    var s1 := Run(p, s, zeros[..k]);
    var s2 := Step(p, s1, zeros[k]);
    assert zeros[..k] + [zeros[k]] + zeros[k + 1..] == zeros;
    RunAppend(p, s, zeros[..k], [zeros[k]]);
    RunOne(p, s1, zeros[k]);
    RunAppend(p, s, zeros[..k] + [zeros[k]], zeros[k + 1..]);
    TraceGrows(p, s2, zeros[k + 1..]);
    CallMade(s2.trace, Run(p, s, zeros).trace, requests, j);
    CallFails(p, s1, requests[j]);
    ZeroRun(p, s, zeros[..k]);
    xs := zeros[..k] + [-1] + zeros;
    FailedCallIsReported(p, notes, cleanup, end, announced, loaded, requests, s, zeros[..k], -1, zeros, -1);
    LoaderOutcome(p, notes, cleanup, end, announced, loaded, requests, s, xs);
    assert xs == zeros[..k] + ([-1] + zeros);
    RunAppend(p, s, zeros[..k], [-1] + zeros);
    TraceGrows(p, s1, [-1] + zeros);
    StepTrace(p, s1, zeros[k]);
    CallMade(s2.trace, Run(p, s, zeros).trace, requests, i);
    OpenedZero(s1, s2.trace, Run(p, s, xs).trace, requests[i], i);
  }

  lemma OpenedZero(s1: Machine, more: seq<Answer>, whole: seq<Answer>, q: Request, i: nat)
    requires AllZero(s1) && i < |s1.trace| && s1.trace <= whole && s1.trace <= more && more[i].request == q && q.Bpf? && Opens(q.cmd)
    ensures AnsweredZero(whole)
  {
    assert OpensZero(whole[i]);
  }

  lemma BootZero(s: Machine)
    requires Boots(s)
    ensures AllZero(s) && s.trace == []
  {
  }

  lemma CallMade(trace: seq<Answer>, whole: seq<Answer>, requests: seq<Request>, j: nat)
    requires trace <= whole && Requests(whole) == requests && j < |trace|
    ensures trace[j].request == requests[j]
  {
    assert trace[j] == whole[j];
  }

  // ----- Where jumps land -------------------------------------------------------------------------

  /** Every jump of a finished program lands inside it, and never between the halves of a 64-bit load. */
  lemma JumpsLandOnInstructions(p: seq<Insn>, notes: seq<Note>, pc: nat)
    requires Complete(p, notes) && pc < |p| && IsJump(p[pc])
    ensures 0 <= pc + 1 + p[pc].off < |p| && p[pc + 1 + p[pc].off] != LoadBlobHi
  {
    assert InsnOk(p, notes, {}, pc);
    var t := pc + 1 + p[pc].off;
    assert Lands(p, notes, {}, t, FlowJump(p[pc], notes[pc]));
    assert t < |p|;
    assert InsnOk(p, notes, {}, t);
  }

  /** Every 64-bit load is complete. */
  lemma LoadsAreWhole(p: seq<Insn>, notes: seq<Note>, pc: nat)
    requires Complete(p, notes) && pc < |p| && p[pc].LoadBlob?
    ensures pc + 1 < |p| && p[pc + 1] == LoadBlobHi
  {
    assert InsnOk(p, notes, {}, pc);
    assert pc + 1 < |p|;
    assert InsnOk(p, notes, {}, pc + 1);
  }
}
