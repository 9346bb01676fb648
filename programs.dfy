/**
 * Whole runs of small programs of the stack machine: what Run computes for
 * them, step by step. Each program is written directly as a sequence of
 * parsed instructions (op, arg, line); the source text is not parsed here.
 * Its label map is written by hand and proved to be the one encontrar_labels
 * builds: IsLabelMap is the success postcondition of Parser.FindLabels.
 */
module Programs {
  import opened Results
  import opened Parser
  import opened Semantics

  /** labels is what encontrar_labels returns for prog: no label twice, each declared label at its index. */
  ghost predicate IsLabelMap(prog: seq<Instruction>, labels: map<Operand, nat>) {
    && !HasDuplicateLabel(prog)
    && (forall a :: a in labels <==> Declares(prog, a))
    && (forall a :: a in labels ==> IsLabelAt(prog, labels[a], a))
  }

  /** One turn of Run when the instruction at the program counter, spelled o, continues with next. */
  lemma Proceed(prog: seq<Instruction>, labels: map<Operand, nat>, m: Machine, fuel: nat, o: Opcode, next: Machine)
    requires m.pc < |prog| && fuel > 0 && prog[m.pc].op == Mnemonic(o)
    requires ExecOpcode(labels, o, prog[m.pc].arg, m) == Ok(Continue(next))
    ensures Run(prog, labels, m, fuel) == Run(prog, labels, next, fuel - 1)
  {
    RunStep(prog, labels, m, fuel);
    DecodeMnemonic(o);
  }

  /** The turn of Run on the instruction at the program counter, spelled o, when it does not continue. */
  lemma Conclude(prog: seq<Instruction>, labels: map<Operand, nat>, m: Machine, fuel: nat, o: Opcode)
    requires m.pc < |prog| && fuel > 0 && prog[m.pc].op == Mnemonic(o)
    ensures var e := ExecOpcode(labels, o, prog[m.pc].arg, m);
      && (e == Ok(Stop) ==> Run(prog, labels, m, fuel) == (Halted, m))
      && (e.Err? ==> Run(prog, labels, m, fuel) == (Failed(prog[m.pc].line + 1, e.error), m))
  {
    RunStep(prog, labels, m, fuel);
    DecodeMnemonic(o);
  }

  /** PUSH n: the integer is pushed. */
  lemma StepPush(prog: seq<Instruction>, labels: map<Operand, nat>, m: Machine, fuel: nat, n: int)
    requires m.pc < |prog| && fuel > 0 && prog[m.pc].op == "PUSH" && prog[m.pc].arg == Num(n)
    ensures Run(prog, labels, m, fuel) == Run(prog, labels, m.(pc := m.pc + 1, stack := m.stack + [n]), fuel - 1)
  {
    Proceed(prog, labels, m, fuel, Push, m.(pc := m.pc + 1, stack := m.stack + [n]));
  }

  /** A binary instruction on a, b: both are replaced by a op b. */
  lemma StepBinary(prog: seq<Instruction>, labels: map<Operand, nat>, m: Machine, fuel: nat, bop: BinOp, a: int, b: int)
    requires m.pc < |prog| && fuel > 0 && prog[m.pc].op == Mnemonic(Binary(bop))
    requires |m.stack| >= 2 && m.stack[|m.stack| - 2] == a && m.stack[|m.stack| - 1] == b && Apply(bop, a, b).Ok?
    ensures Run(prog, labels, m, fuel) ==
      Run(prog, labels, m.(pc := m.pc + 1, stack := m.stack[..|m.stack| - 2] + [Apply(bop, a, b).value]), fuel - 1)
  {
    Proceed(prog, labels, m, fuel, Binary(bop), m.(pc := m.pc + 1, stack := m.stack[..|m.stack| - 2] + [Apply(bop, a, b).value]));
  }

  /** PRINT: the top v is written. */
  lemma StepPrint(prog: seq<Instruction>, labels: map<Operand, nat>, m: Machine, fuel: nat, v: int)
    requires m.pc < |prog| && fuel > 0 && prog[m.pc].op == "PRINT"
    requires m.stack != [] && m.stack[|m.stack| - 1] == v
    ensures Run(prog, labels, m, fuel) == Run(prog, labels, m.(pc := m.pc + 1, output := m.output + [v]), fuel - 1)
  {
    Proceed(prog, labels, m, fuel, Print, m.(pc := m.pc + 1, output := m.output + [v]));
  }

  /** A label declaration does nothing. */
  lemma StepLabel(prog: seq<Instruction>, labels: map<Operand, nat>, m: Machine, fuel: nat)
    requires m.pc < |prog| && fuel > 0 && prog[m.pc].op == "LABEL"
    ensures Run(prog, labels, m, fuel) == Run(prog, labels, m.(pc := m.pc + 1), fuel - 1)
  {
    Proceed(prog, labels, m, fuel, Label, m.(pc := m.pc + 1));
  }

  /** CALL within the depth limit to a declared label. */
  lemma StepCall(prog: seq<Instruction>, labels: map<Operand, nat>, m: Machine, fuel: nat, target: Operand)
    requires m.pc < |prog| && fuel > 0 && prog[m.pc].op == "CALL" && prog[m.pc].arg == target
    requires |m.calls| < MaxCallDepth && target.Name? && target in labels
    ensures Run(prog, labels, m, fuel) ==
      Run(prog, labels, m.(pc := labels[target], calls := m.calls + [m.pc + 1]), fuel - 1)
  {
    Proceed(prog, labels, m, fuel, Call, m.(pc := labels[target], calls := m.calls + [m.pc + 1]));
  }

  /** RET to the return address r on top of the call stack. */
  lemma StepRet(prog: seq<Instruction>, labels: map<Operand, nat>, m: Machine, fuel: nat, r: nat)
    requires m.pc < |prog| && fuel > 0 && prog[m.pc].op == "RET"
    requires m.calls != [] && m.calls[|m.calls| - 1] == r
    ensures Run(prog, labels, m, fuel) == Run(prog, labels, m.(pc := r, calls := m.calls[..|m.calls| - 1]), fuel - 1)
  {
    Proceed(prog, labels, m, fuel, Ret, m.(pc := r, calls := m.calls[..|m.calls| - 1]));
  }

  // ---------------------------------------------------------------------
  // PUSH 10 / PUSH 3 / DIV / PRINT / HALT

  const Quotient: seq<Instruction> := [
    Instruction("PUSH", Num(10), 0),
    Instruction("PUSH", Num(3), 1),
    Instruction("DIV", NoArg, 2),
    Instruction("PRINT", NoArg, 3),
    Instruction("HALT", NoArg, 4)
  ]

  /** The program prints 3 and halts. */
  lemma QuotientPrintsThree(input: seq<string>, fuel: nat)
    requires fuel >= 5
    ensures var res := Run(Quotient, map[], Initial(input), fuel);
      res.0 == Halted && res.1.output == [3] && res.1.stack == [3]
  {
    var m0 := Initial(input);
    StepPush(Quotient, map[], m0, fuel, 10);
    var m1 := m0.(pc := m0.pc + 1, stack := m0.stack + [10]);
    StepPush(Quotient, map[], m1, fuel - 1, 3);
    var m2 := m1.(pc := m1.pc + 1, stack := m1.stack + [3]);
    StepBinary(Quotient, map[], m2, fuel - 2, Div, 10, 3);
    assert TruncDiv(10, 3) == 3;
    var m3 := m2.(pc := m2.pc + 1, stack := m2.stack[..0] + [3]);
    StepPrint(Quotient, map[], m3, fuel - 3, 3);
    var m4 := m3.(pc := m3.pc + 1, output := m3.output + [3]);
    Conclude(Quotient, map[], m4, fuel - 4, Halt);
    assert m4.stack == [3] && m4.output == [3];
  }


  // ---------------------------------------------------------------------
  // PUSH 1 / PUSH 0 / DIV / HALT

  const ZeroDivisor: seq<Instruction> := [
    Instruction("PUSH", Num(1), 0),
    Instruction("PUSH", Num(0), 1),
    Instruction("DIV", NoArg, 2),
    Instruction("HALT", NoArg, 3)
  ]

  /** The program fails at line 3, the DIV, having printed nothing. */
  lemma ZeroDivisorFails(input: seq<string>, fuel: nat)
    requires fuel >= 3
    ensures var res := Run(ZeroDivisor, map[], Initial(input), fuel);
      res.0 == Failed(3, DivisionByZero) && res.1.output == []
  {
    var m0 := Initial(input);
    StepPush(ZeroDivisor, map[], m0, fuel, 1);
    var m1 := m0.(pc := m0.pc + 1, stack := m0.stack + [1]);
    StepPush(ZeroDivisor, map[], m1, fuel - 1, 0);
    var m2 := m1.(pc := m1.pc + 1, stack := m1.stack + [0]);
    Conclude(ZeroDivisor, map[], m2, fuel - 2, Binary(Div));
  }


  // ---------------------------------------------------------------------
  // PUSH a / PUSH b / EQ / PRINT / HALT

  function Equality(a: int, b: int): seq<Instruction> {
    [
      Instruction("PUSH", Num(a), 0),
      Instruction("PUSH", Num(b), 1),
      Instruction("EQ", NoArg, 2),
      Instruction("PRINT", NoArg, 3),
      Instruction("HALT", NoArg, 4)
    ]
  }

  /** The program prints 1 when a equals b and 0 otherwise, then halts. */
  lemma EqualityPrints(a: int, b: int, input: seq<string>, fuel: nat)
    requires fuel >= 5
    ensures var res := Run(Equality(a, b), map[], Initial(input), fuel);
      res.0 == Halted && res.1.output == [if a == b then 1 else 0]
  {
    var prog := Equality(a, b);
    var v := if a == b then 1 else 0;
    var m0 := Initial(input);
    StepPush(prog, map[], m0, fuel, a);
    var m1 := m0.(pc := m0.pc + 1, stack := m0.stack + [a]);
    StepPush(prog, map[], m1, fuel - 1, b);
    var m2 := m1.(pc := m1.pc + 1, stack := m1.stack + [b]);
    StepBinary(prog, map[], m2, fuel - 2, Eq, a, b);
    var m3 := m2.(pc := m2.pc + 1, stack := m2.stack[..0] + [v]);
    StepPrint(prog, map[], m3, fuel - 3, v);
    var m4 := m3.(pc := m3.pc + 1, output := m3.output + [v]);
    Conclude(prog, map[], m4, fuel - 4, Halt);
    assert m4.output == [v];
  }


  // ---------------------------------------------------------------------
  // Errors in the first instruction

  /** An instruction FOO fails at its own line with the unknown opcode named. */
  lemma UnknownInstruction(input: seq<string>, fuel: nat)
    requires fuel >= 1
    ensures Run([Instruction("FOO", NoArg, 0)], map[], Initial(input), fuel)
      == (Failed(1, UnknownOpcode("FOO")), Initial(input))
  {
    RunStep([Instruction("FOO", NoArg, 0)], map[], Initial(input), fuel);
  }

  /** A RET with no CALL before it fails at its own line. */
  lemma RetWithoutCallFails(input: seq<string>, fuel: nat)
    requires fuel >= 1
    ensures Run([Instruction("RET", NoArg, 0)], map[], Initial(input), fuel)
      == (Failed(1, RetWithoutCall), Initial(input))
  {
    Conclude([Instruction("RET", NoArg, 0)], map[], Initial(input), fuel, Ret);
  }

  // ---------------------------------------------------------------------
  // A subroutine: PUSH 7 / CALL inc / PRINT / HALT / inc: / PUSH 1 / ADD / RET

  const Subroutine: seq<Instruction> := [
    Instruction("PUSH", Num(7), 0),
    Instruction("CALL", Name("inc"), 1),
    Instruction("PRINT", NoArg, 2),
    Instruction("HALT", NoArg, 3),
    Instruction("LABEL", Name("inc"), 4),
    Instruction("PUSH", Num(1), 5),
    Instruction("ADD", NoArg, 6),
    Instruction("RET", NoArg, 7)
  ]

  const SubroutineLabels: map<Operand, nat> := map[Name("inc") := 4]

  /** The label map of Subroutine is the one encontrar_labels builds. */
  lemma SubroutineLabelsFound()
    ensures IsLabelMap(Subroutine, SubroutineLabels)
  {
    assert IsLabelAt(Subroutine, 4, Name("inc"));
    forall k | 0 <= k < |Subroutine| && Subroutine[k].op == "LABEL"
      ensures k == 4
    {
    }
  }

  /** RET resumes at the PRINT after the CALL, which prints 8; the call stack is empty again. */
  lemma SubroutineReturns(input: seq<string>, fuel: nat)
    requires fuel >= 8
    ensures var res := Run(Subroutine, SubroutineLabels, Initial(input), fuel);
      res.0 == Halted && res.1.output == [8] && res.1.calls == []
  {
    var p, l := Subroutine, SubroutineLabels;
    var m0 := Initial(input);
    StepPush(p, l, m0, fuel, 7);
    var m1 := m0.(pc := m0.pc + 1, stack := m0.stack + [7]);
    StepCall(p, l, m1, fuel - 1, Name("inc"));
    var m2 := m1.(pc := 4, calls := m1.calls + [2]);
    StepLabel(p, l, m2, fuel - 2);
    var m3 := m2.(pc := m2.pc + 1);
    StepPush(p, l, m3, fuel - 3, 1);
    var m4 := m3.(pc := m3.pc + 1, stack := m3.stack + [1]);
    StepBinary(p, l, m4, fuel - 4, Add, 7, 1);
    var m5 := m4.(pc := m4.pc + 1, stack := m4.stack[..0] + [8]);
    StepRet(p, l, m5, fuel - 5, 2);
    var m6 := m5.(pc := 2, calls := m5.calls[..0]);
    StepPrint(p, l, m6, fuel - 6, 8);
    var m7 := m6.(pc := m6.pc + 1, output := m6.output + [8]);
    Conclude(p, l, m7, fuel - 7, Halt);
    assert m7.output == [8] && m7.calls == [];
  }


  // ---------------------------------------------------------------------
  // Runaway recursion: f: / CALL f

  const Runaway: seq<Instruction> := [
    Instruction("LABEL", Name("f"), 0),
    Instruction("CALL", Name("f"), 1)
  ]

  const RunawayLabels: map<Operand, nat> := map[Name("f") := 0]

  /** The label map of Runaway is the one encontrar_labels builds. */
  lemma RunawayLabelsFound()
    ensures IsLabelMap(Runaway, RunawayLabels)
  {
    assert IsLabelAt(Runaway, 0, Name("f"));
    assert Runaway[1].op != "LABEL";
  }

  /**
   * From the label, with d return addresses already on the call stack, the
   * self-call goes on until the call stack holds MaxCallDepth addresses; the
   * next CALL fails at line 2. Each level costs two instructions.
   */
  lemma {:induction false} RunawayFails(m: Machine, fuel: nat)
    requires m.pc == 0 && |m.calls| <= MaxCallDepth
    requires fuel >= 2 * (MaxCallDepth - |m.calls|) + 2
    ensures var res := Run(Runaway, RunawayLabels, m, fuel);
      && res.0 == Failed(2, CallDepthExceeded)
      && |res.1.calls| == MaxCallDepth
      && res.1.output == m.output && res.1.stack == m.stack
    decreases MaxCallDepth - |m.calls|
  {
    var m1 := m.(pc := 1);
    StepLabel(Runaway, RunawayLabels, m, fuel);
    if |m.calls| < MaxCallDepth {
      var m2 := m1.(pc := 0, calls := m.calls + [2]);
      StepCall(Runaway, RunawayLabels, m1, fuel - 1, Name("f"));
      RunawayFails(m2, fuel - 2);
    } else {
      Conclude(Runaway, RunawayLabels, m1, fuel - 1, Call);
    }
  }

  /** From the start the program fails after exactly MaxCallDepth successful calls. */
  lemma RunawayFromStart(input: seq<string>, fuel: nat)
    requires fuel >= 2 * MaxCallDepth + 2
    ensures var res := Run(Runaway, RunawayLabels, Initial(input), fuel);
      res.0 == Failed(2, CallDepthExceeded) && |res.1.calls| == MaxCallDepth && res.1.output == []
  {
    RunawayFails(Initial(input), fuel);
  }
}
