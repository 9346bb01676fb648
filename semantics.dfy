/**
 * The meaning of one instruction and of a whole run of the stack machine
 * (src/interpretador.py), as functions on an immutable machine state. The
 * class in module Engine updates its fields in place and is proved to
 * follow these functions step for step.
 */
module Semantics {
  import opened Results
  import opened Strings
  import opened Parser

  /** MAX_CALL_DEPTH: the most return addresses the call stack may hold. */
  const MaxCallDepth: nat := 1000

  /** The two-operand instructions: pop b, pop a, push a op b. */
  datatype BinOp = Add | Sub | Mul | Div | Mod | Eq | Neq | Lt | Gt | Le | Ge

  /** The opcodes executar_instrucao dispatches on. */
  datatype Opcode =
    | Push | Pop | Binary(bop: BinOp) | Neg
    | Store | Load
    | Jmp | Jz | Jnz | Halt
    | Call | Ret
    | Print | Read
    | Vazio  // a blank or comment line
    | Label  // a label declaration

  /** The upper-case spelling of an opcode. */
  function Mnemonic(o: Opcode): string {
    match o
    case Push => "PUSH"
    case Pop => "POP"
    case Binary(Add) => "ADD"
    case Binary(Sub) => "SUB"
    case Binary(Mul) => "MUL"
    case Binary(Div) => "DIV"
    case Binary(Mod) => "MOD"
    case Binary(Eq) => "EQ"
    case Binary(Neq) => "NEQ"
    case Binary(Lt) => "LT"
    case Binary(Gt) => "GT"
    case Binary(Le) => "LE"
    case Binary(Ge) => "GE"
    case Neg => "NEG"
    case Store => "STORE"
    case Load => "LOAD"
    case Jmp => "JMP"
    case Jz => "JZ"
    case Jnz => "JNZ"
    case Halt => "HALT"
    case Call => "CALL"
    case Ret => "RET"
    case Print => "PRINT"
    case Read => "READ"
    case Vazio => "VAZIO"
    case Label => "LABEL"
  }

  /** The first branches of the dispatch: the stack and arithmetic instructions. */
  function DecodeArithmetic(op: string): (r: Option<Opcode>)
    ensures r.Some? ==> Mnemonic(r.value) == op
  {
    if op == "PUSH" then Some(Push)
    else if op == "POP" then Some(Pop)
    else if op == "ADD" then Some(Binary(Add))
    else if op == "SUB" then Some(Binary(Sub))
    else if op == "MUL" then Some(Binary(Mul))
    else if op == "DIV" then Some(Binary(Div))
    else if op == "MOD" then Some(Binary(Mod))
    else if op == "NEG" then Some(Neg)
    else None
  }

  /** The next branches: variables, jumps and HALT. */
  function DecodeControl(op: string): (r: Option<Opcode>)
    ensures r.Some? ==> Mnemonic(r.value) == op
  {
    if op == "STORE" then Some(Store)
    else if op == "LOAD" then Some(Load)
    else if op == "JMP" then Some(Jmp)
    else if op == "JZ" then Some(Jz)
    else if op == "JNZ" then Some(Jnz)
    else if op == "HALT" then Some(Halt)
    else None
  }

  /** The comparisons. */
  function DecodeComparison(op: string): (r: Option<Opcode>)
    ensures r.Some? ==> Mnemonic(r.value) == op
  {
    if op == "EQ" then Some(Binary(Eq))
    else if op == "NEQ" then Some(Binary(Neq))
    else if op == "LT" then Some(Binary(Lt))
    else if op == "GT" then Some(Binary(Gt))
    else if op == "LE" then Some(Binary(Le))
    else if op == "GE" then Some(Binary(Ge))
    else None
  }

  /** The last branches: subroutines, input and output, and the no-ops. */
  function DecodeRest(op: string): (r: Option<Opcode>)
    ensures r.Some? ==> Mnemonic(r.value) == op
  {
    if op == "CALL" then Some(Call)
    else if op == "RET" then Some(Ret)
    else if op == "PRINT" then Some(Print)
    else if op == "READ" then Some(Read)
    else if op == "VAZIO" then Some(Vazio)
    else if op == "LABEL" then Some(Label)
    else None
  }

  /** The branch of the dispatch an op string selects; None for the final else. */
  function Decode(op: string): (r: Option<Opcode>)
    ensures r.Some? ==> Mnemonic(r.value) == op
  {
    var a := DecodeArithmetic(op);
    if a.Some? then a
    else
      var c := DecodeControl(op);
      if c.Some? then c
      else
        var k := DecodeComparison(op);
        if k.Some? then k else DecodeRest(op)
  }

  /** Every opcode is selected by its own spelling, so Decode and Mnemonic are inverse. */
  lemma DecodeMnemonic(o: Opcode)
    ensures Decode(Mnemonic(o)) == Some(o)
  {
    match o
    case Push | Pop | Binary(Add) | Binary(Sub) | Binary(Mul) | Binary(Div) | Binary(Mod) | Neg =>
      assert DecodeArithmetic(Mnemonic(o)) == Some(o);
    case Store | Load | Jmp | Jz | Jnz | Halt =>
      DecodeControlMnemonic(o);
    case Binary(_) =>
      DecodeComparisonMnemonic(o);
    case _ =>
      DecodeRestMnemonic(o);
  }

  lemma DecodeControlMnemonic(o: Opcode)
    requires o in {Store, Load, Jmp, Jz, Jnz, Halt}
    ensures Decode(Mnemonic(o)) == Some(o)
  {
    assert DecodeArithmetic(Mnemonic(o)) == None;
  }

  lemma DecodeComparisonMnemonic(o: Opcode)
    requires o.Binary? && IsComparison(o.bop)
    ensures Decode(Mnemonic(o)) == Some(o)
  {
    assert DecodeArithmetic(Mnemonic(o)) == None;
    assert DecodeControl(Mnemonic(o)) == None;
  }

  lemma DecodeRestMnemonic(o: Opcode)
    requires o in {Call, Ret, Print, Read, Vazio, Label}
    ensures Decode(Mnemonic(o)) == Some(o)
  {
    assert DecodeArithmetic(Mnemonic(o)) == None;
    assert DecodeControl(Mnemonic(o)) == None;
    assert DecodeComparison(Mnemonic(o)) == None;
  }

  /** Every spelling is written in capitals. */
  lemma MnemonicCapitals(o: Opcode)
    ensures forall k :: 0 <= k < |Mnemonic(o)| ==> IsCapital(Mnemonic(o)[k])
  {
  }

  /**
   * The dispatch upper-cases the opcode first, so an opcode written in any
   * mix of lower and upper case ("push", "Jnz") selects the same instruction.
   */
  lemma DecodeAnyCase(o: Opcode, s: string)
    requires |s| == |Mnemonic(o)|
    requires forall k :: 0 <= k < |s| ==> s[k] == Mnemonic(o)[k] || s[k] as int == Mnemonic(o)[k] as int + 32
    ensures Decode(Upper(s)) == Some(o)
  {
    MnemonicCapitals(o);
    UpperAnyCase(s, Mnemonic(o));
    DecodeMnemonic(o);
  }

  /** The errors that stop a run, one per exception the dispatch raises. */
  datatype Fault =
    | EmptyStack                     // pop on an empty data stack
    | PrintOnEmpty                   // PRINT with an empty data stack
    | DivisionByZero                 // DIV by 0
    | ModuloByZero                   // MOD by 0
    | UndefinedVariable(name: Operand)
    | UnresolvedLabel(target: Operand)
    | InvalidAddress(target: Operand)
    | CallDepthExceeded
    | RetWithoutCall
    | EndOfInput                     // READ after the last input line
    | InvalidInput(text: string)     // READ of a line that is not an integer
    | UnknownOpcode(op: string)
    | UnsupportedValue(arg: Operand) // PUSH of an operand that is not an integer

  /**
   * The machine state: program counter, data stack (top last), variables,
   * call stack of return addresses (top last), the values PRINT wrote and
   * the input lines READ has still to consume.
   */
  datatype Machine = Machine(
    pc: nat,
    stack: seq<int>,
    vars: map<Operand, int>,
    calls: seq<nat>,
    output: seq<int>,
    input: seq<string>)

  /** The state __init__ sets up. */
  function Initial(input: seq<string>): Machine {
    Machine(0, [], map[], [], [], input)
  }

  function Abs(x: int): nat {
    if x < 0 then -x else x
  }

  /**
   * int(a / b): the exact quotient rounded toward zero. Its magnitude is
   * |a| div |b| and it is negative exactly when a and b have opposite signs.
   */
  function TruncDiv(a: int, b: int): (q: int)
    requires b != 0
    ensures Abs(q) == Abs(a) / Abs(b)
    ensures q != 0 ==> (q > 0 <==> (a > 0) == (b > 0))
  {
    var m: int := Abs(a) / Abs(b);
    assert a == 0 ==> m == 0;
    if (a < 0) == (b < 0) then m else -m
  }

  /** Rounding toward zero differs from Python's floor division // for operands of opposite signs. */
  lemma TruncDivExamples()
    ensures TruncDiv(10, 3) == 3
    ensures TruncDiv(-7, 2) == -3 && FloorDiv(-7, 2) == -4
    ensures TruncDiv(7, -2) == -3 && FloorDiv(7, -2) == -4
  {
  }

  /** Python's a % b: the remainder of floor division, carrying the divisor's sign. */
  function FloorMod(a: int, b: int): (r: int)
    requires b != 0
    ensures b > 0 ==> 0 <= r < b
    ensures b < 0 ==> b < r <= 0
  {
    var e := a % b;
    if b < 0 && e != 0 then e + b else e
  }

  /** Python's a // b, the quotient FloorMod belongs to. */
  function FloorDiv(a: int, b: int): int
    requires b != 0
  {
    if b < 0 && a % b != 0 then a / b - 1 else a / b
  }

  /** a == (a // b) * b + a % b: FloorMod is the remainder of a division of a by b. */
  lemma FloorDivMod(a: int, b: int)
    requires b != 0
    ensures a == FloorDiv(a, b) * b + FloorMod(a, b)
  {
    if b < 0 && a % b != 0 {
      assert (a / b - 1) * b == (a / b) * b - b;
    }
  }

  predicate IsComparison(op: BinOp) {
    op in {Eq, Neq, Lt, Gt, Le, Ge}
  }

  /** a op b for the two values a binary instruction pops. */
  function Apply(op: BinOp, a: int, b: int): (r: Result<int, Fault>)
    ensures r.Err? <==> b == 0 && (op == Div || op == Mod)
    ensures r.Err? ==> r.error == (if op == Div then DivisionByZero else ModuloByZero)
    ensures IsComparison(op) ==> r.Ok? && (r.value == 1 || r.value == 0)
  {
    match op
    case Add => Ok(a + b)
    case Sub => Ok(a - b)
    case Mul => Ok(a * b)
    case Div => if b == 0 then Err(DivisionByZero) else Ok(TruncDiv(a, b))
    case Mod => if b == 0 then Err(ModuloByZero) else Ok(FloorMod(a, b))
    case Eq => Ok(if a == b then 1 else 0)
    case Neq => Ok(if a != b then 1 else 0)
    case Lt => Ok(if a < b then 1 else 0)
    case Gt => Ok(if a > b then 1 else 0)
    case Le => Ok(if a <= b then 1 else 0)
    case Ge => Ok(if a >= b then 1 else 0)
  }

  /**
   * resolver_endereco: a label name resolves to the index it is declared
   * at; every other operand is rejected, as the code is written.
   */
  function Resolve(labels: map<Operand, nat>, target: Operand): (r: Result<nat, Fault>)
    ensures r.Ok? <==> target.Name? && target in labels
    ensures r.Ok? ==> r.value == labels[target]
    ensures target.Name? && target !in labels ==> r == Err(UnresolvedLabel(target))
    ensures !target.Name? ==> r == Err(InvalidAddress(target))
  {
    if target.Name? then
      if target in labels then Ok(labels[target]) else Err(UnresolvedLabel(target))
    else
      Err(InvalidAddress(target))
  }

  /**
   * A numeric jump target is rejected even when it is a valid instruction
   * index and even when "LABEL n" registered it: the range check after the
   * type test can never be reached.
   */
  lemma NumericTargetRejected(prog: seq<Instruction>, labels: map<Operand, nat>, n: int)
    requires 0 <= n < |prog| && Num(n) in labels
    ensures Resolve(labels, Num(n)) == Err(InvalidAddress(Num(n)))
  {
  }

  /** The result of one instruction: the next state, or the signal that HALT was reached. */
  datatype Step = Continue(next: Machine) | Stop

  /** Sets the program counter to the resolved target, or fails. */
  function JumpTo(labels: map<Operand, nat>, target: Operand, m: Machine): (r: Result<Step, Fault>)
    ensures r.Ok? <==> Resolve(labels, target).Ok?
    ensures r.Ok? ==> r == Ok(Continue(m.(pc := labels[target])))
  {
    match Resolve(labels, target)
    case Ok(t) => Ok(Continue(m.(pc := t)))
    case Err(f) => Err(f)
  }

  /** The state with the program counter on the next instruction. */
  function Advance(m: Machine): Machine {
    m.(pc := m.pc + 1)
  }

  /** PUSH: only an integer operand can be pushed. */
  function PushStep(arg: Operand, m: Machine): Result<Step, Fault> {
    if arg.Num? then Ok(Continue(Advance(m).(stack := m.stack + [arg.n])))
    else Err(UnsupportedValue(arg))
  }

  /** POP: drop the top. */
  function PopStep(m: Machine): Result<Step, Fault> {
    var n := |m.stack|;
    if n == 0 then Err(EmptyStack)
    else Ok(Continue(Advance(m).(stack := m.stack[..n - 1])))
  }

  /** ADD SUB MUL DIV MOD and the comparisons: pop b, pop a, push a op b. */
  function BinaryStep(bop: BinOp, m: Machine): Result<Step, Fault> {
    var s := m.stack;
    var n := |s|;
    if n < 2 then Err(EmptyStack)
    else
      match Apply(bop, s[n - 2], s[n - 1])
      case Ok(v) => Ok(Continue(Advance(m).(stack := s[..n - 2] + [v])))
      case Err(f) => Err(f)
  }

  /** NEG: negate the top. */
  function NegStep(m: Machine): Result<Step, Fault> {
    var n := |m.stack|;
    if n == 0 then Err(EmptyStack)
    else Ok(Continue(Advance(m).(stack := m.stack[..n - 1] + [-m.stack[n - 1]])))
  }

  /** STORE: pop the top into the variable arg. */
  function StoreStep(arg: Operand, m: Machine): Result<Step, Fault> {
    var n := |m.stack|;
    if n == 0 then Err(EmptyStack)
    else Ok(Continue(Advance(m).(stack := m.stack[..n - 1], vars := m.vars[arg := m.stack[n - 1]])))
  }

  /** LOAD: push the value of the variable arg. */
  function LoadStep(arg: Operand, m: Machine): Result<Step, Fault> {
    if arg in m.vars then Ok(Continue(Advance(m).(stack := m.stack + [m.vars[arg]])))
    else Err(UndefinedVariable(arg))
  }

  /** JZ (onZero) and JNZ: pop the condition, then jump to arg or fall through. */
  function BranchStep(labels: map<Operand, nat>, onZero: bool, arg: Operand, m: Machine): Result<Step, Fault> {
    var n := |m.stack|;
    if n == 0 then Err(EmptyStack)
    else
      var rest := m.(stack := m.stack[..n - 1]);
      if (m.stack[n - 1] == 0) == onZero then JumpTo(labels, arg, rest)
      else Ok(Continue(Advance(rest)))
  }

  /** CALL: refuse a call beyond MaxCallDepth, push the return address, then jump. */
  function CallStep(labels: map<Operand, nat>, arg: Operand, m: Machine): Result<Step, Fault> {
    if |m.calls| >= MaxCallDepth then Err(CallDepthExceeded)
    else JumpTo(labels, arg, m.(calls := m.calls + [m.pc + 1]))
  }

  /** RET: pop the return address into the program counter. */
  function RetStep(m: Machine): Result<Step, Fault> {
    var n := |m.calls|;
    if n == 0 then Err(RetWithoutCall)
    else Ok(Continue(m.(pc := m.calls[n - 1], calls := m.calls[..n - 1])))
  }

  /** PRINT: write the top, which stays on the stack. */
  function PrintStep(m: Machine): Result<Step, Fault> {
    var n := |m.stack|;
    if n == 0 then Err(PrintOnEmpty)
    else Ok(Continue(Advance(m).(output := m.output + [m.stack[n - 1]])))
  }

  /** READ: consume the next input line and push it as an integer. */
  function ReadStep(m: Machine): Result<Step, Fault> {
    if m.input == [] then Err(EndOfInput)
    else
      match ParseInt(m.input[0])
      case None => Err(InvalidInput(m.input[0]))
      case Some(v) => Ok(Continue(Advance(m).(stack := m.stack + [v], input := m.input[1..])))
  }

  /** One instruction of the dispatch, by opcode. */
  function ExecOpcode(labels: map<Operand, nat>, o: Opcode, arg: Operand, m: Machine): Result<Step, Fault> {
    match o
    case Push => PushStep(arg, m)
    case Pop => PopStep(m)
    case Binary(bop) => BinaryStep(bop, m)
    case Neg => NegStep(m)
    case Store => StoreStep(arg, m)
    case Load => LoadStep(arg, m)
    case Jmp => JumpTo(labels, arg, m)
    case Jz => BranchStep(labels, true, arg, m)
    case Jnz => BranchStep(labels, false, arg, m)
    case Halt => Ok(Stop)
    case Call => CallStep(labels, arg, m)
    case Ret => RetStep(m)
    case Print => PrintStep(m)
    case Read => ReadStep(m)
    case Vazio => Ok(Continue(Advance(m)))
    case Label => Ok(Continue(Advance(m)))
  }

  /** executar_instrucao(op, arg) on the state m. */
  function Exec(labels: map<Operand, nat>, op: string, arg: Operand, m: Machine): Result<Step, Fault> {
    match Decode(op)
    case None => Err(UnknownOpcode(op))
    case Some(o) => ExecOpcode(labels, o, arg, m)
  }

  /**
   * The reply of executar_instrucao (false for HALT, true otherwise, or the
   * exception) and the state after it agree with the step e taken from
   * before. After an exception only the output is fixed: the run stops.
   */
  predicate Agrees(e: Result<Step, Fault>, r: Result<bool, Fault>, before: Machine, after: Machine) {
    match e
    case Ok(Stop) => r == Ok(false) && after == before
    case Ok(Continue(next)) => r == Ok(true) && after == next
    case Err(f) => r == Err(f) && after.output == before.output
  }

  // ---------------------------------------------------------------------
  // Properties of one step

  /** The instructions that may set the program counter to something other than pc + 1. */
  predicate Transfers(o: Opcode) {
    o in {Jmp, Jz, Jnz, Call, Ret}
  }

  /** An op string the dispatch does not know is an error naming it. */
  lemma UnknownOpcodeFails(labels: map<Operand, nat>, op: string, arg: Operand, m: Machine)
    requires forall o :: Mnemonic(o) != op
    ensures Exec(labels, op, arg, m) == Err(UnknownOpcode(op))
  {
  }

  /** Only HALT stops, and it changes nothing. */
  lemma HaltOnly(labels: map<Operand, nat>, o: Opcode, arg: Operand, m: Machine)
    ensures ExecOpcode(labels, o, arg, m) == Ok(Stop) <==> o == Halt
  {
  }

  /** Every other successful step advances the program counter by one. */
  lemma StraightLine(labels: map<Operand, nat>, o: Opcode, arg: Operand, m: Machine)
    requires !Transfers(o) && ExecOpcode(labels, o, arg, m).Ok? && o != Halt
    ensures ExecOpcode(labels, o, arg, m).value.Continue?
    ensures ExecOpcode(labels, o, arg, m).value.next.pc == m.pc + 1
  {
  }

  /**
   * A control transfer either advances by one, goes to the index of a
   * declared label, or (RET) to the most recent return address.
   */
  lemma TransferTargets(labels: map<Operand, nat>, o: Opcode, arg: Operand, m: Machine)
    requires Transfers(o) && ExecOpcode(labels, o, arg, m).Ok?
    ensures ExecOpcode(labels, o, arg, m).value.Continue?
    ensures var pc' := ExecOpcode(labels, o, arg, m).value.next.pc;
      || (o != Ret && pc' in labels.Values && arg in labels && pc' == labels[arg])
      || ((o == Jz || o == Jnz) && pc' == m.pc + 1)
      || (o == Ret && m.calls != [] && pc' == m.calls[|m.calls| - 1])
  {
  }

  /** The call stack never grows beyond MaxCallDepth. */
  lemma CallDepthBounded(labels: map<Operand, nat>, o: Opcode, arg: Operand, m: Machine)
    requires |m.calls| <= MaxCallDepth
    requires ExecOpcode(labels, o, arg, m).Ok? && ExecOpcode(labels, o, arg, m).value.Continue?
    ensures |ExecOpcode(labels, o, arg, m).value.next.calls| <= MaxCallDepth
  {
  }

  /** Only PRINT writes output, and it appends the top of the stack, leaving the stack as it is. */
  lemma OutputAppendOnly(labels: map<Operand, nat>, o: Opcode, arg: Operand, m: Machine)
    requires ExecOpcode(labels, o, arg, m).Ok? && ExecOpcode(labels, o, arg, m).value.Continue?
    ensures var m' := ExecOpcode(labels, o, arg, m).value.next;
      if o == Print then m.stack != [] && m'.output == m.output + [m.stack[|m.stack| - 1]] && m'.stack == m.stack
      else m'.output == m.output
  {
  }

  /** Only STORE changes the variables; it binds arg to the popped top of the stack. */
  lemma VariablesOnlyByStore(labels: map<Operand, nat>, o: Opcode, arg: Operand, m: Machine)
    requires ExecOpcode(labels, o, arg, m).Ok? && ExecOpcode(labels, o, arg, m).value.Continue?
    ensures var m' := ExecOpcode(labels, o, arg, m).value.next;
      if o == Store then m.stack != [] && m'.vars == m.vars[arg := m.stack[|m.stack| - 1]] && m'.stack + [m.stack[|m.stack| - 1]] == m.stack
      else m'.vars == m.vars
  {
  }

  /** LOAD of a name that STORE never bound fails, naming it. */
  lemma LoadUndefined(labels: map<Operand, nat>, arg: Operand, m: Machine)
    requires arg !in m.vars
    ensures ExecOpcode(labels, Load, arg, m) == Err(UndefinedVariable(arg))
  {
  }

  /** READ of a line that starts with a separator (U+001C..U+001F) fails: int() does not skip those. */
  lemma ReadRefusesSeparator(labels: map<Operand, nat>, m: Machine)
    requires m.input != [] && m.input[0] != [] && IsSeparator(m.input[0][0])
    ensures ExecOpcode(labels, Read, NoArg, m) == Err(InvalidInput(m.input[0]))
  {
    ParseIntSeparator(m.input[0]);
  }

  /** READ of a line int() accepts pushes its value, consumes the line and advances. */
  lemma ReadAccepted(labels: map<Operand, nat>, m: Machine, n: int)
    requires m.input != [] && ParseInt(m.input[0]) == Some(n)
    ensures ExecOpcode(labels, Read, NoArg, m) ==
      Ok(Continue(m.(pc := m.pc + 1, stack := m.stack + [n], input := m.input[1..])))
  {
  }

  /** READ of a number with whitespace around it pushes that number and consumes the line. */
  lemma ReadPadded(labels: map<Operand, nat>, m: Machine, pre: string, n: int, post: string)
    requires AllIntSpace(pre) && AllIntSpace(post)
    requires m.input != [] && m.input[0] == pre + IntToString(n) + post
    ensures ExecOpcode(labels, Read, NoArg, m) ==
      Ok(Continue(m.(pc := m.pc + 1, stack := m.stack + [n], input := m.input[1..])))
  {
    ParseIntPadded(pre, n, post);
    ReadAccepted(labels, m, n);
  }

  /** STORE x followed by LOAD x puts the stored value back: the stack is as before STORE. */
  lemma StoreThenLoad(labels: map<Operand, nat>, arg: Operand, m: Machine)
    requires m.stack != []
    ensures var s := ExecOpcode(labels, Store, arg, m);
      && s.Ok? && s.value.Continue?
      && var l := ExecOpcode(labels, Load, arg, s.value.next);
      && l.Ok? && l.value.Continue?
      && l.value.next.stack == m.stack
      && l.value.next.pc == m.pc + 2
      && l.value.next.vars[arg] == m.stack[|m.stack| - 1]
  {
    var n := |m.stack|;
    assert m.stack[..n - 1] + [m.stack[n - 1]] == m.stack;
  }

  /** VAZIO and LABEL only advance the program counter. */
  lemma NoOpAdvances(labels: map<Operand, nat>, o: Opcode, arg: Operand, m: Machine)
    requires o == Vazio || o == Label
    ensures ExecOpcode(labels, o, arg, m) == Ok(Continue(m.(pc := m.pc + 1)))
  {
  }

  /** A binary instruction replaces the two top values a, b by a op b. */
  lemma BinaryShrinks(labels: map<Operand, nat>, bop: BinOp, arg: Operand, m: Machine)
    requires |m.stack| >= 2
    requires Apply(bop, m.stack[|m.stack| - 2], m.stack[|m.stack| - 1]).Ok?
    ensures var n := |m.stack|;
      var r := ExecOpcode(labels, Binary(bop), arg, m);
      && r.Ok? && r.value.Continue?
      && r.value.next.stack == m.stack[..n - 2] + [Apply(bop, m.stack[n - 2], m.stack[n - 1]).value]
      && r.value.next.pc == m.pc + 1
  {
  }

  /** A binary instruction on fewer than two values fails. */
  lemma BinaryNeedsTwo(labels: map<Operand, nat>, bop: BinOp, arg: Operand, m: Machine)
    requires |m.stack| < 2
    ensures ExecOpcode(labels, Binary(bop), arg, m) == Err(EmptyStack)
  {
  }

  /** JZ and JNZ pop the condition, then jump or fall through according to it. */
  lemma ConditionalJump(labels: map<Operand, nat>, o: Opcode, arg: Operand, m: Machine)
    requires o == Jz || o == Jnz
    requires m.stack != []
    ensures var c := m.stack[|m.stack| - 1];
      var rest := m.stack[..|m.stack| - 1];
      var taken := if o == Jz then c == 0 else c != 0;
      var r := ExecOpcode(labels, o, arg, m);
      && (taken ==> r == JumpTo(labels, arg, m.(stack := rest)))
      && (!taken ==> r == Ok(Continue(m.(pc := m.pc + 1, stack := rest))))
  {
  }

  /** CALL followed by RET resumes at the instruction after the CALL, with the call stack restored. */
  lemma CallThenRet(labels: map<Operand, nat>, target: Operand, arg: Operand, m: Machine, inner: Machine)
    requires ExecOpcode(labels, Call, target, m).Ok?
    requires inner.calls == ExecOpcode(labels, Call, target, m).value.next.calls
    ensures var r := ExecOpcode(labels, Ret, arg, inner);
      r.Ok? && r.value.Continue? && r.value.next.pc == m.pc + 1 && r.value.next.calls == m.calls
  {
    assert inner.calls == m.calls + [m.pc + 1];
    assert inner.calls[..|inner.calls| - 1] == m.calls;
  }

  /** RET without an unmatched CALL fails. */
  lemma BareRetFails(labels: map<Operand, nat>, arg: Operand, m: Machine)
    requires m.calls == []
    ensures Exec(labels, "RET", arg, m) == Err(RetWithoutCall)
  {
    DecodeMnemonic(Ret);
  }

  /** CALL fails exactly when the call stack is full or its target does not resolve. */
  lemma CallFails(labels: map<Operand, nat>, arg: Operand, m: Machine)
    requires |m.calls| <= MaxCallDepth
    ensures ExecOpcode(labels, Call, arg, m).Err? <==>
      |m.calls| == MaxCallDepth || Resolve(labels, arg).Err?
    ensures |m.calls| == MaxCallDepth ==> ExecOpcode(labels, Call, arg, m) == Err(CallDepthExceeded)
  {
  }

  // ---------------------------------------------------------------------
  // Runs

  /** How a run ends: HALT, the program counter past the end, a fault at a 1-based line, or no fuel left. */
  datatype Outcome = Halted | Finished | Failed(line: nat, fault: Fault) | OutOfFuel

  /**
   * The loop of executar, for at most fuel instructions. The state returned
   * with Failed is the one before the failing instruction. A turn of the
   * loop is spread over Run, Fetch, Perform and After.
   */
  function Run(prog: seq<Instruction>, labels: map<Operand, nat>, m: Machine, fuel: nat): (Outcome, Machine)
    decreases fuel, 3
  {
    if m.pc >= |prog| then (Finished, m)
    else if fuel == 0 then (OutOfFuel, m)
    else Fetch(prog, labels, m, fuel)
  }

  /** Fetch the instruction at the program counter. */
  function Fetch(prog: seq<Instruction>, labels: map<Operand, nat>, m: Machine, fuel: nat): (Outcome, Machine)
    requires m.pc < |prog| && fuel > 0
    decreases fuel, 2
  {
    Perform(prog, labels, m, prog[m.pc], fuel)
  }

  /** Execute the fetched instruction ins. */
  function Perform(prog: seq<Instruction>, labels: map<Operand, nat>, m: Machine, ins: Instruction, fuel: nat): (Outcome, Machine)
    requires fuel > 0
    decreases fuel, 1
  {
    After(prog, labels, m, ins.line, Exec(labels, ins.op, ins.arg, m), fuel)
  }

  /** How the run goes on once the instruction at the 0-based line has given e. */
  function After(prog: seq<Instruction>, labels: map<Operand, nat>, m: Machine, line: nat, e: Result<Step, Fault>, fuel: nat): (Outcome, Machine)
    requires fuel > 0
    decreases fuel, 0
  {
    match e
    case Err(f) => (Failed(line + 1, f), m)
    case Ok(Stop) => (Halted, m)
    case Ok(Continue(next)) => Run(prog, labels, next, fuel - 1)
  }

  /** One turn of the loop of Run, spelled out. */
  lemma RunStep(prog: seq<Instruction>, labels: map<Operand, nat>, m: Machine, fuel: nat)
    requires m.pc < |prog| && fuel > 0
    ensures var ins := prog[m.pc];
      Run(prog, labels, m, fuel) == After(prog, labels, m, ins.line, Exec(labels, ins.op, ins.arg, m), fuel)
  {
    assert Run(prog, labels, m, fuel) == Fetch(prog, labels, m, fuel);
    assert Fetch(prog, labels, m, fuel) == Perform(prog, labels, m, prog[m.pc], fuel);
  }

  /**
   * One turn of the loop of Run: a reply r and a state after that agree
   * with the step from before continue, stop or end the run as Run does.
   */
  lemma RunAfterStep(prog: seq<Instruction>, labels: map<Operand, nat>, before: Machine, after: Machine,
                     r: Result<bool, Fault>, fuel: nat)
    requires before.pc < |prog| && fuel > 0
    requires Agrees(Exec(labels, prog[before.pc].op, prog[before.pc].arg, before), r, before, after)
    ensures r == Ok(true) ==> Run(prog, labels, after, fuel - 1) == Run(prog, labels, before, fuel)
    ensures r == Ok(false) ==> Run(prog, labels, before, fuel) == (Halted, after)
    ensures r.Err? ==> Run(prog, labels, before, fuel) == (Failed(prog[before.pc].line + 1, r.error), before)
                       && after.output == before.output
  {
    RunStep(prog, labels, before, fuel);
  }

  /** The per-step facts the bounds of a run are built from. */
  lemma StepInvariants(labels: map<Operand, nat>, op: string, arg: Operand, m: Machine)
    ensures var e := Exec(labels, op, arg, m);
      e.Ok? && e.value.Continue? ==>
        && (|m.calls| <= MaxCallDepth ==> |e.value.next.calls| <= MaxCallDepth)
        && m.output <= e.value.next.output
  {
    var e := Exec(labels, op, arg, m);
    if e.Ok? && e.value.Continue? {
      var o := Decode(op).value;
      if |m.calls| <= MaxCallDepth {
        CallDepthBounded(labels, o, arg, m);
      }
      OutputAppendOnly(labels, o, arg, m);
    }
  }

  /**
   * A run keeps the call stack within MaxCallDepth, only appends to the
   * output, and finishes only with the program counter past the program.
   */
  lemma {:induction false} RunBounds(prog: seq<Instruction>, labels: map<Operand, nat>, m: Machine, fuel: nat)
    ensures var res := Run(prog, labels, m, fuel);
      && (|m.calls| <= MaxCallDepth ==> |res.1.calls| <= MaxCallDepth)
      && m.output <= res.1.output
      && (res.0 == Finished ==> res.1.pc >= |prog|)
    decreases fuel
  {
    if m.pc < |prog| && fuel > 0 {
      var ins := prog[m.pc];
      RunStep(prog, labels, m, fuel);
      StepInvariants(labels, ins.op, ins.arg, m);
      var e := Exec(labels, ins.op, ins.arg, m);
      if e.Ok? && e.value.Continue? {
        RunBounds(prog, labels, e.value.next, fuel - 1);
      }
    }
  }

  /** More fuel does not change a run that ended for another reason. */
  lemma {:induction false} RunMoreFuel(prog: seq<Instruction>, labels: map<Operand, nat>, m: Machine, fuel: nat, extra: nat)
    requires Run(prog, labels, m, fuel).0 != OutOfFuel
    ensures Run(prog, labels, m, fuel + extra) == Run(prog, labels, m, fuel)
    decreases fuel
  {
    if m.pc < |prog| && fuel > 0 {
      var ins := prog[m.pc];
      RunStep(prog, labels, m, fuel);
      RunStep(prog, labels, m, fuel + extra);
      var e := Exec(labels, ins.op, ins.arg, m);
      if e.Ok? && e.value.Continue? {
        RunMoreFuel(prog, labels, e.value.next, fuel - 1, extra);
        assert fuel + extra - 1 == fuel - 1 + extra;
      }
    }
  }
}
