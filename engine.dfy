/**
 * The interpreter object (src/interpretador.py): program, labels, program
 * counter, data stack, variable store and call stack, updated in place by
 * one method per instruction and by the fetch-execute loop. Each method is
 * proved to do what the functions of module Semantics say.
 */
module Engine {
  import opened Results
  import opened Strings
  import opened Parser
  import opened DataStack
  import opened VarStore
  import opened Semantics

  class Interpreter {
    const stack: Stack
    const memory: Memory<Operand>
    var program: seq<Instruction>
    var labels: map<Operand, nat>
    var pc: nat
    /** Return addresses pushed by CALL, most recent last. */
    var calls: seq<nat>
    /** The values PRINT has written, in order. */
    var output: seq<int>
    /** The input lines READ has not consumed yet. */
    var input: seq<string>

    /** __init__: an empty machine, reading its input from the given lines. */
    constructor (input: seq<string>)
      ensures State() == Initial(input) && program == [] && labels == map[]
      ensures fresh(stack) && fresh(memory)
    {
      stack := new Stack();
      memory := new Memory<Operand>();
      program := [];
      labels := map[];
      pc := 0;
      calls := [];
      output := [];
      this.input := input;
    }

    /** The state of the machine as a value. */
    function State(): Machine
      reads this, stack, memory
    {
      Machine(pc, stack.items, memory.vars, calls, output, input)
    }

    /**
     * carregar_programa with the file already split into lines: parse the
     * lines, collect the labels and start at the first instruction. A parse
     * error leaves the object as it was; a duplicate label leaves the new
     * program in place but not its labels, and names the first label
     * declared a second time.
     */
    method LoadProgram(lines: seq<string>) returns (r: Result<(), LoadFault>)
      modifies this
      ensures calls == old(calls) && output == old(output) && input == old(input)
      ensures var parsed := Collect(ParsedLines(lines));
        && (parsed.Err? ==> r == Err(parsed.error) && program == old(program) && labels == old(labels) && pc == old(pc))
        && (parsed.Ok? ==> program == parsed.value && (r.Ok? <==> !HasDuplicateLabel(program)))
        && (parsed.Ok? && r.Err? ==>
              (r.error.DuplicateLabel? &&
               exists j :: IsLabelAt(program, j, r.error.name) && Declares(program[..j], r.error.name)
                           && !HasDuplicateLabel(program[..j])))
      ensures r.Err? && r.error.DuplicateLabel? ==> labels == old(labels) && pc == old(pc)
      ensures r.Ok? ==> pc == 0 && forall a :: (a in labels <==> Declares(program, a)) && (a in labels ==> IsLabelAt(program, labels[a], a))
    {
      var parsed := ParseLines(lines);
      if parsed.Err? {
        return Err(parsed.error);
      }
      program := parsed.value;
      var found := FindLabels(program);
      if found.Err? {
        return Err(found.error);
      }
      labels := found.value;
      pc := 0;
      return Ok(());
    }

    /** executar_instrucao(op, arg): one step, as Exec prescribes. */
    method ExecuteInstruction(op: string, arg: Operand) returns (r: Result<bool, Fault>)
      modifies this, stack, memory
      ensures program == old(program) && labels == old(labels)
      ensures Agrees(Exec(labels, op, arg, old(State())), r, old(State()), State())
    {
      var o := Decode(op);
      if o.None? {
        return Err(UnknownOpcode(op));
      }
      assert Exec(labels, op, arg, State()) == ExecOpcode(labels, o.value, arg, State());
      match o.value
      case Push =>
        r := ExecutePush(arg);
      case Pop =>
        r := ExecutePop();
      case Binary(bop) =>
        r := ExecuteBinary(bop);
      case Neg =>
        r := ExecuteNeg();
      case Store =>
        r := ExecuteStore(arg);
      case Load =>
        r := ExecuteLoad(arg);
      case Jmp =>
        r := ExecuteJump(arg);
      case Jz =>
        r := ExecuteBranch(true, arg);
      case Jnz =>
        r := ExecuteBranch(false, arg);
      case Halt =>
        r := Ok(false);
      case Call =>
        r := ExecuteCall(arg);
      case Ret =>
        r := ExecuteRet();
      case Print =>
        r := ExecutePrint();
      case Read =>
        r := ExecuteRead();
      case Vazio =>
        pc := pc + 1;
        r := Ok(true);
      case Label =>
        pc := pc + 1;
        r := Ok(true);
    }

    method ExecutePush(arg: Operand) returns (r: Result<bool, Fault>)
      modifies this, stack, memory
      ensures program == old(program) && labels == old(labels)
      ensures Agrees(PushStep(arg, old(State())), r, old(State()), State())
    {
      if !arg.Num? {
        return Err(UnsupportedValue(arg));
      }
      stack.Push(arg.n);
      pc := pc + 1;
      r := Ok(true);
    }

    method ExecutePop() returns (r: Result<bool, Fault>)
      modifies this, stack, memory
      ensures program == old(program) && labels == old(labels)
      ensures Agrees(PopStep(old(State())), r, old(State()), State())
    {
      var top := stack.Pop();
      if top.Err? {
        return Err(EmptyStack);
      }
      pc := pc + 1;
      r := Ok(true);
    }

    /** ADD SUB MUL DIV MOD and the comparisons: pop b, pop a, push a op b. */
    method ExecuteBinary(bop: BinOp) returns (r: Result<bool, Fault>)
      modifies this, stack, memory
      ensures program == old(program) && labels == old(labels)
      ensures Agrees(BinaryStep(bop, old(State())), r, old(State()), State())
    {
      ghost var m := State();
      ghost var s := stack.items;
      var b := stack.Pop();
      if b.Err? {
        return Err(EmptyStack);
      }
      var a := stack.Pop();
      if a.Err? {
        return Err(EmptyStack);
      }
      assert s == stack.items + [a.value, b.value];
      assert stack.items == s[..|s| - 2] && a.value == s[|s| - 2] && b.value == s[|s| - 1];
      var v := Apply(bop, a.value, b.value);
      if v.Err? {
        return Err(v.error);
      }
      stack.Push(v.value);
      pc := pc + 1;
      assert BinaryStep(bop, m) == Ok(Continue(State()));
      r := Ok(true);
    }

    method ExecuteNeg() returns (r: Result<bool, Fault>)
      modifies this, stack, memory
      ensures program == old(program) && labels == old(labels)
      ensures Agrees(NegStep(old(State())), r, old(State()), State())
    {
      var a := stack.Pop();
      if a.Err? {
        return Err(EmptyStack);
      }
      stack.Push(-a.value);
      pc := pc + 1;
      r := Ok(true);
    }

    method ExecuteStore(arg: Operand) returns (r: Result<bool, Fault>)
      modifies this, stack, memory
      ensures program == old(program) && labels == old(labels)
      ensures Agrees(StoreStep(arg, old(State())), r, old(State()), State())
    {
      var v := stack.Pop();
      if v.Err? {
        return Err(EmptyStack);
      }
      memory.Store(arg, v.value);
      pc := pc + 1;
      r := Ok(true);
    }

    method ExecuteLoad(arg: Operand) returns (r: Result<bool, Fault>)
      modifies this, stack, memory
      ensures program == old(program) && labels == old(labels)
      ensures Agrees(LoadStep(arg, old(State())), r, old(State()), State())
    {
      var v := memory.Load(arg);
      if v.Err? {
        return Err(UndefinedVariable(arg));
      }
      stack.Push(v.value);
      pc := pc + 1;
      r := Ok(true);
    }

    method ExecuteJump(arg: Operand) returns (r: Result<bool, Fault>)
      modifies this, stack, memory
      ensures program == old(program) && labels == old(labels)
      ensures Agrees(JumpTo(labels, arg, old(State())), r, old(State()), State())
    {
      var target := Resolve(labels, arg);
      if target.Err? {
        return Err(target.error);
      }
      pc := target.value;
      r := Ok(true);
    }

    /** JZ and JNZ: pop the condition, then jump or fall through. */
    method ExecuteBranch(onZero: bool, arg: Operand) returns (r: Result<bool, Fault>)
      modifies this, stack, memory
      ensures program == old(program) && labels == old(labels)
      ensures Agrees(BranchStep(labels, onZero, arg, old(State())), r, old(State()), State())
    {
      var c := stack.Pop();
      if c.Err? {
        return Err(EmptyStack);
      }
      if (c.value == 0) == onZero {
        var target := Resolve(labels, arg);
        if target.Err? {
          return Err(target.error);
        }
        pc := target.value;
      } else {
        pc := pc + 1;
      }
      r := Ok(true);
    }

    method ExecuteCall(arg: Operand) returns (r: Result<bool, Fault>)
      modifies this, stack, memory
      ensures program == old(program) && labels == old(labels)
      ensures Agrees(CallStep(labels, arg, old(State())), r, old(State()), State())
    {
      if |calls| >= MaxCallDepth {
        return Err(CallDepthExceeded);
      }
      calls := calls + [pc + 1];
      var target := Resolve(labels, arg);
      if target.Err? {
        return Err(target.error);
      }
      pc := target.value;
      r := Ok(true);
    }

    method ExecuteRet() returns (r: Result<bool, Fault>)
      modifies this, stack, memory
      ensures program == old(program) && labels == old(labels)
      ensures Agrees(RetStep(old(State())), r, old(State()), State())
    {
      if calls == [] {
        return Err(RetWithoutCall);
      }
      pc := calls[|calls| - 1];
      calls := calls[..|calls| - 1];
      r := Ok(true);
    }

    /** PRINT: write the top of the stack, which stays where it is. */
    method ExecutePrint() returns (r: Result<bool, Fault>)
      modifies this, stack, memory
      ensures program == old(program) && labels == old(labels)
      ensures Agrees(PrintStep(old(State())), r, old(State()), State())
    {
      if stack.IsEmpty() {
        return Err(PrintOnEmpty);
      }
      var top := stack.Peek();
      output := output + [top.value];
      pc := pc + 1;
      r := Ok(true);
    }

    /** READ: consume one input line and push it as an integer. */
    method ExecuteRead() returns (r: Result<bool, Fault>)
      modifies this, stack, memory
      ensures program == old(program) && labels == old(labels)
      ensures Agrees(ReadStep(old(State())), r, old(State()), State())
    {
      ghost var m := State();
      if input == [] {
        return Err(EndOfInput);
      }
      var line := input[0];
      var value := ParseInt(line);
      input := input[1..];
      match value
      case None =>
        assert ReadStep(m) == Err(InvalidInput(line));
        return Err(InvalidInput(line));
      case Some(v) =>
        stack.Push(v);
        pc := pc + 1;
        assert ReadStep(m) == Ok(Continue(State()));
        r := Ok(true);
    }

    /**
     * One turn of the loop of executar: execute the instruction at pc. The
     * run from the old state with fuel steps goes on as the run from the new
     * state with one step less, stops at HALT, or fails at the instruction's
     * 1-based line.
     */
    method Cycle(ghost fuel: nat) returns (r: Result<bool, Fault>, line: nat)
      requires pc < |program| && fuel > 0
      modifies this, stack, memory
      ensures program == old(program) && labels == old(labels)
      ensures r == Ok(true) ==> Run(program, labels, State(), fuel - 1) == Run(program, labels, old(State()), fuel)
      ensures r == Ok(false) ==> Run(program, labels, old(State()), fuel) == (Halted, State())
      ensures r.Err? ==> Run(program, labels, old(State()), fuel) == (Failed(line, r.error), old(State()))
                         && output == old(output)
    {
      var ins := program[pc];
      ghost var before := State();
      r := ExecuteInstruction(ins.op, ins.arg);
      RunAfterStep(program, labels, before, State(), r, fuel);
      line := ins.line + 1;
    }

    /**
     * executar, for at most fuel instructions: fetch the instruction at pc
     * and execute it until HALT, the end of the program or a fault, which
     * is reported with the instruction's 1-based line.
     */
    method Execute(fuel: nat) returns (outcome: Outcome)
      modifies this, stack, memory
      ensures program == old(program) && labels == old(labels)
      ensures var res := Run(old(program), old(labels), old(State()), fuel);
        && outcome == res.0
        && output == res.1.output
        && (!outcome.Failed? ==> State() == res.1)
    {
      var remaining := fuel;
      ghost var goal := Run(program, labels, State(), fuel);
      while pc < |program|
        invariant program == old(program) && labels == old(labels)
        invariant Run(program, labels, State(), remaining) == goal
        decreases remaining
      {
        if remaining == 0 {
          return OutOfFuel;
        }
        var r, line := Cycle(remaining);
        match r
        case Err(f) =>
          return Failed(line, f);
        case Ok(running) =>
          if !running {
            return Halted;
          }
          remaining := remaining - 1;
      }
      return Finished;
    }
  }
}
