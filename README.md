# A bytecode stack machine, modelled and proved in Dafny

The interpreter runs text programs for a small stack machine. Each program line is one of:
- an instruction such as `PUSH 10`, `ADD`, `JZ fim`, `CALL f`, `PRINT`, `READ` or `HALT`;
- a label declaration `nome:`;
- a blank line or a `#` comment.

The parser (`src/instrucoes.py`) turns each line into an `(op, arg, line)` triple and collects the label map. The interpreter object (`src/interpretador.py`) has:
- a program counter;
- a data stack (`src/pilha.py`);
- a variable store (`src/memoria.py`);
- a call stack capped at 1000 return addresses.

It runs a fetch–execute loop until `HALT`, until it passes the last instruction, or until an instruction fails; a failure is reported with its 1-based source line.

The Dafny project has one module per concern:

| file | module | models |
|---|---|---|
| `results.dfy` | `Results` | `Option` and `Result`, which stand in for Python's exceptions |
| `strings.dfy` | `Strings` | the Python string operations the parser and `READ` rely on: `strip`, `split(maxsplit=1)`, `upper`, `index`, `int()` |
| `parser.dfy` | `Parser` | `parsear_linhas` and `encontrar_labels`: both are loops. The first is proved against functions on the lines, the second against predicates on the parsed instructions |
| `stack.dfy` | `DataStack` | class `Pilha` as class `Stack`, over a `seq<int>` field |
| `varstore.dfy` | `VarStore` | class `Memoria` as class `Memory`, over a `map` field |
| `semantics.dfy` | `Semantics` | the meaning of each instruction and of a run, as functions on an immutable `Machine` value, with lemmas about them |
| `engine.dfy` | `Engine` | class `InterpretadorBytecode` as class `Interpreter` |
| `programs.dfy` | `Programs` | whole runs of small example programs |

In the `Engine` module:
- the instruction methods update the fields in place, and each is proved to agree with the step function of `Semantics`;
- the loop method `Execute` is proved to compute `Semantics.Run`.

Exceptions become values of type `Fault` (instructions) and `LoadFault` (loading). Each run ends in one of these outcomes:
- `Halted`;
- `Finished` (the program counter ran past the end);
- `Failed(line, fault)`;
- `OutOfFuel`.

Stack and variable values are mathematical integers. Operands are `NoArg` (Python's `None`), `Num(n)` (an `int`), `Dec(text)` (a `float`, kept as text) or `Name(s)` (any other string).

`resolver_endereco` is modelled as the code is written. The check on non-string targets comes before the range check, so every numeric jump target is rejected: `Semantics.NumericTargetRejected` states this. The program's own text shows this was not the intent:
- the docstring at `src/interpretador.py:195` says an address may be a label or a number;
- the error at `src/interpretador.py:202` reads "address must be an integer or a label", yet it is raised for integers;
- the range check at `src/interpretador.py:204-207` can never be reached.

The model follows the code as written.

## Model

| member | source | states |
|---|---|---|
| Strings.LStrip | src/instrucoes.py:17 | the left-stripped text is no longer than the line, does not start with whitespace, and is the line itself when the line starts with a non-space |
| Strings.IsSpace | src/instrucoes.py:17 | the characters `str.strip()` removes by default: the ASCII controls from tab to carriage return, the separators 0x1C-0x1F, space, and the Unicode white space of `str.isspace` |
| Strings.RStrip | src/instrucoes.py:17 | the right-stripped text is no longer than the line, does not end with whitespace, and keeps something when the line starts with a non-space |
| Strings.Strip | src/instrucoes.py:17 | the stripped line neither starts nor ends with whitespace, and is non-empty when the line starts with a non-space |
| Strings.LStripSuffix | src/instrucoes.py:17 | lstrip returns a suffix of its input |
| Strings.RStripPrefix | src/instrucoes.py:17 | rstrip returns a prefix of its input |
| Strings.LStripRemovesSpaces | src/instrucoes.py:17 | every character lstrip removes is whitespace |
| Strings.RStripRemovesSpaces | src/instrucoes.py:17 | every character rstrip removes is whitespace |
| Strings.StripSpaces | src/instrucoes.py:19 | a stripped line is empty exactly when the line is all whitespace, which is the blank-line test |
| Strings.LStripAppend | src/instrucoes.py:17 | lstrip of a concatenation stops in the first part unless that part is all whitespace |
| Strings.RStripAppend | src/instrucoes.py:17 | rstrip of a concatenation stops in the second part unless that part is all whitespace |
| Strings.StripTrimmed | src/instrucoes.py:17 | a text with non-space ends is its own strip |
| Strings.LStripIdempotent | src/instrucoes.py:17 | left-stripping the left-stripped text again changes nothing |
| Strings.StripIdempotent | src/instrucoes.py:24 | stripping the stripped text again changes nothing |
| Strings.IndexOf | src/instrucoes.py:24 | `index('#')` is a position holding `#` with no `#` before it |
| Strings.FirstSpace | src/instrucoes.py:31 | the end of the first token is the end of the text or a whitespace character |
| Strings.FirstSpaceNoSpace | src/instrucoes.py:31 | the first token `split` returns contains no whitespace |
| Strings.SplitOnce | src/instrucoes.py:31 | `split(maxsplit=1)` gives at most two parts; it gives none exactly when the line is blank; the first part is non-empty; a second part is non-empty and does not start with whitespace |
| Strings.SplitOnceSpaces | src/instrucoes.py:31 | the split is empty exactly for an all-whitespace line, and the first part holds no whitespace |
| Strings.SplitOnceJoined | src/instrucoes.py:31-33 | a line made of a token, any non-empty run of whitespace and a rest starting with a non-space splits into exactly `[token, rest]` |
| Strings.SplitOnceToken | src/instrucoes.py:31-33 | a single token splits into just that token |
| Strings.Upper | src/instrucoes.py:32 | upper-casing keeps the length, leaves no lower-case letter, keeps every other character, and maps each lower-case letter to its capital (code point minus 32) |
| Strings.UpperAnyCase | src/instrucoes.py:32 | every spelling of a capitalised word in any mix of cases upper-cases to that word |
| Strings.NatToString | src/instrucoes.py:36 | the decimal text of n is a run of digits whose value is n, with no leading zero: it starts with `0` only when it is `"0"` |
| Strings.ParseIntOfIntToString | src/instrucoes.py:36 | `int(str(n)) == n` for every integer n of the model; integers are unbounded here, and Python's digit limit is listed under "Left out" |
| Strings.ParseInt | src/instrucoes.py:36 | `int()` on text: surrounding whitespace other than the separators U+001C-U+001F is ignored, an optional sign precedes at least one digit, anything else is an error; `ParseIntOfIntToString`, `ParseIntPadded` and `ParseIntSeparator` state its meaning |
| Strings.ParseIntPadded | src/interpretador.py:180 | an integer written with `str` and surrounded by whitespace `int()` skips reads back as that integer |
| Strings.ParseIntSeparator | src/interpretador.py:180-183 | text starting with one of the separators U+001C-U+001F is refused by `int()`, though `isspace` holds of them |
| Parser.NumericShape | src/instrucoes.py:35 | the digit test `replace('-', '').replace('.', '').isdigit()`: only digits, `-` and `.`, with at least one digit |
| Parser.IsDecimalText | src/instrucoes.py:35-36 | when `float()` accepts numeric-shaped text: a `-` only in front and exactly one `.` |
| Parser.Classify | src/instrucoes.py:35-36 | text failing the digit test is a name; numeric-shaped text without `.` is `Num(int(text))` exactly when `int()` accepts it; with `.` it is kept as a decimal exactly when `float()` accepts it; otherwise loading fails with `MalformedNumber` at that line |
| Parser.ParseCode | src/instrucoes.py:26-38 | code ending in `:` is `('LABEL', stripped text before ':', i)`; any result carries line i; an error is a conversion error of line i |
| Parser.ParseLine | src/instrucoes.py:17-38 | a blank or comment line is `('VAZIO', None, i)`; any result carries line i; an error is a conversion error of line i |
| Parser.ParsedLines | src/instrucoes.py:16-38 | one result per line, the k-th being line k parsed with index k |
| Parser.CollectResults | src/instrucoes.py:14-40 | appending results in order succeeds exactly when every result does, with one value per result in order, and otherwise fails with the first error |
| Parser.ParseAllLines | src/instrucoes.py:12-40 | parsing succeeds exactly when every line parses. On success: one instruction per line, the k-th carrying line index k. On failure: the error is the first failing line's |
| Parser.ParseLines | src/instrucoes.py:12-40 | the loop of `parsear_linhas` computes exactly the collected line results |
| Parser.RestFails | src/instrucoes.py:16-36 | once a line fails to convert, the lines after it do not change the result |
| Parser.Collect | src/instrucoes.py:14-40 | the list the loop builds, or the first exception it raises; `CollectResults` states its meaning |
| Parser.FindLabels | src/instrucoes.py:43-51 | succeeds exactly when no two LABEL instructions share a name. On success: the map's keys are exactly the declared labels, and each maps to the index of a LABEL instruction with that name. On failure: the error names a label declared at an index j and already declared before j, with no duplicate before j |
| Parser.ParseLineNoComment | src/instrucoes.py:23-26 | a line without `#` is classified as its stripped text |
| Parser.ParseLineComment | src/instrucoes.py:23-24 | a line with `#` is classified as the stripped text before its first `#` |
| Parser.CommentDropped | src/instrucoes.py:23-24 | appending `#` and any comment to a code line does not change how it parses |
| Parser.LabelDeclaration | src/instrucoes.py:26-29 | the line `name:` is `('LABEL', name stripped, i)` |
| Parser.OperationWithOperand | src/instrucoes.py:31-38 | a line "op, whitespace, operand" parses to the upper-cased op with the operand classified, or to the classification error |
| Parser.OperationAlone | src/instrucoes.py:31-38 | a single-token line gives the token upper-cased, with no operand |
| Parser.IntegerOperand | src/instrucoes.py:35-36 | the line `op str(n)` gives op upper-cased with the integer operand n |
| Parser.MisplacedMinus | src/instrucoes.py:35-36 | an operand of digits and `-` with a `-` after its first character (such as `1-2`) passes the digit test and then fails to convert |
| Parser.FormatRoundTrip | src/instrucoes.py:16-38 | parsing the source line of any instruction the text format can express gives that instruction back at the new line index |
| DataStack.Stack.constructor | src/pilha.py:4-5 | a new stack is empty |
| DataStack.Stack.Push | src/pilha.py:7-9 | the item is appended on top; the size grows by one and peek returns the item |
| DataStack.Stack.Pop | src/pilha.py:11-15 | on an empty stack: fails and changes nothing. Otherwise: returns the last pushed item and leaves the items below it unchanged |
| DataStack.Stack.Peek | src/pilha.py:17-21 | fails exactly on an empty stack; otherwise returns the top item, the last of the items |
| DataStack.Stack.IsEmpty | src/pilha.py:23-25 | `vazia()` holds exactly when there are no items |
| DataStack.Stack.Size | src/pilha.py:27-29 | `tamanho()` is the number of items |
| DataStack.Reversed | src/pilha.py:7-15 | the reversal has the same length, with element k being element n-1-k |
| DataStack.LifoLaw | src/pilha.py:7-15 | pushing v1..vn onto a new stack and popping n times yields vn..v1; one more pop fails |
| VarStore.Memory.constructor | src/memoria.py:4-5 | a new store has no bindings |
| VarStore.Memory.Store | src/memoria.py:7-9 | binds the name to the value, so loading it returns the value; every other name loads as before |
| VarStore.Memory.Load | src/memoria.py:11-19 | succeeds exactly when the name exists (`existe`), with its bound value; otherwise the error names it |
| VarStore.Memory.Exists | src/memoria.py:17-19 | whether a name is bound; `Load` succeeds exactly when it holds, `Store` makes it hold for the stored name only, `Clear` makes it fail everywhere |
| VarStore.Memory.Clear | src/memoria.py:21-23 | afterwards no name exists |
| VarStore.LastWriteWins | src/memoria.py:7-15 | of two stores under one name, a load sees the second |
| VarStore.NeverStored | src/memoria.py:11-15 | loading a name that was never stored fails, naming it |
| Semantics.DecodeArithmetic | src/interpretador.py:41-87 | a recognised op string is the spelling of the opcode it selects |
| Semantics.DecodeControl | src/interpretador.py:90-119 | a recognised op string is the spelling of the opcode it selects |
| Semantics.DecodeComparison | src/interpretador.py:122-156 | a recognised op string is the spelling of the opcode it selects |
| Semantics.DecodeRest | src/interpretador.py:159-187 | a recognised op string is the spelling of the opcode it selects |
| Semantics.Decode | src/interpretador.py:41-190 | the dispatch selects an opcode only for its exact upper-case spelling |
| Semantics.DecodeMnemonic | src/interpretador.py:41-187 | every opcode's spelling selects that opcode, so the dispatch is closed and each branch is reachable |
| Semantics.DecodeAnyCase | src/interpretador.py:41-187 | since the parser upper-cases the opcode, any spelling of a mnemonic in lower or mixed case selects that instruction |
| Semantics.TruncDiv | src/interpretador.py:73 | `int(a / b)` has magnitude \|a\| div \|b\|, and a non-zero result is positive exactly when a and b have the same sign |
| Semantics.TruncDivExamples | src/interpretador.py:73 | 10/3 gives 3; -7/2 and 7/-2 give -3 where floor division gives -4 |
| Semantics.FloorMod | src/interpretador.py:81 | `a % b` lies in [0, b) for a positive divisor and in (b, 0] for a negative one |
| Semantics.FloorDivMod | src/interpretador.py:81 | a == (a // b) * b + a % b |
| Semantics.Apply | src/interpretador.py:50-156 | a binary operation fails exactly for DIV or MOD by zero, with the matching error; a comparison yields only 1 or 0 |
| Semantics.Resolve | src/interpretador.py:194-207 | succeeds exactly for a declared label name, giving its index. An unknown name fails as unresolved; every non-name target fails as an invalid address |
| Semantics.NumericTargetRejected | src/interpretador.py:201-207 | a numeric target is rejected even when it is a valid index and even when `LABEL n` registered it |
| Semantics.JumpTo | src/interpretador.py:101-102 | JMP succeeds exactly when the target resolves, and then only sets the program counter to the label's index |
| Semantics.PushStep | src/interpretador.py:41-43 | PUSH pushes an integer operand and advances; any other operand is refused |
| Semantics.PopStep | src/interpretador.py:45-47 | POP drops the top and advances, failing on an empty stack |
| Semantics.BinaryStep | src/interpretador.py:50-156 | the binary instructions replace the two top values a, b with `a op b` and advance, failing with fewer than two values or on division by zero |
| Semantics.NegStep | src/interpretador.py:84-87 | NEG replaces the top with its negation and advances |
| Semantics.StoreStep | src/interpretador.py:90-93 | STORE pops the top into the named variable and advances |
| Semantics.LoadStep | src/interpretador.py:95-98 | LOAD pushes the variable's value and advances, failing on an unbound name |
| Semantics.BranchStep | src/interpretador.py:104-116 | JZ/JNZ pop the condition, then jump to the target when it is (not) zero and advance otherwise |
| Semantics.CallStep | src/interpretador.py:159-163 | CALL fails at 1000 saved addresses, else saves pc + 1 and jumps |
| Semantics.RetStep | src/interpretador.py:165-168 | RET pops the saved address into the program counter, failing without a call |
| Semantics.PrintStep | src/interpretador.py:171-176 | PRINT appends the top to the output without popping, failing on an empty stack |
| Semantics.ReadStep | src/interpretador.py:178-184 | READ consumes one input line and pushes its integer value, failing at end of input or on text `int()` refuses |
| Semantics.ExecOpcode | src/interpretador.py:37-192 | the dispatch of `executar_instrucao`: one step function per branch, VAZIO and LABEL only advance, HALT stops |
| Semantics.Exec | src/interpretador.py:37-190 | an opcode with no branch fails with "unknown operation", any other runs its branch |
| Semantics.Agrees | src/interpretador.py:37-38 | the reply of `executar_instrucao` (false for HALT, true otherwise, or the exception) and the new state match a step |
| Semantics.UnknownOpcodeFails | src/interpretador.py:189-190 | an op string that spells no opcode fails, naming it |
| Semantics.HaltOnly | src/interpretador.py:118-119 | exactly HALT signals a stop |
| Semantics.StraightLine | src/interpretador.py:41-187 | every successful instruction other than HALT and the jumps, CALL and RET continues at pc + 1 |
| Semantics.TransferTargets | src/interpretador.py:101-168 | a successful jump, CALL or RET continues at one of three places: a declared label's index, pc + 1 (a branch not taken), or the last return address (RET) |
| Semantics.CallDepthBounded | src/interpretador.py:159-163 | no instruction takes the call stack beyond 1000 addresses |
| Semantics.CallFails | src/interpretador.py:159-163 | CALL fails exactly when the call stack is full or the target does not resolve; a full stack gives the depth error |
| Semantics.OutputAppendOnly | src/interpretador.py:171-176 | only PRINT writes. It appends the top of the stack and leaves the stack as it is |
| Semantics.VariablesOnlyByStore | src/interpretador.py:90-93 | only STORE changes the variables. It binds the operand to the popped top |
| Semantics.ReadRefusesSeparator | src/interpretador.py:178-183 | READ of a line starting with a separator U+001C-U+001F fails with invalid input, naming the line |
| Semantics.ReadAccepted | src/interpretador.py:178-184 | READ of a line `int()` accepts pushes its value, consumes the line and advances |
| Semantics.ReadPadded | src/interpretador.py:178-184 | READ of a number with whitespace around it pushes the number, consumes the line and advances |
| Semantics.LoadUndefined | src/interpretador.py:95-98 | LOAD of an unbound name fails, naming it |
| Semantics.StoreThenLoad | src/interpretador.py:90-98 | STORE x then LOAD x restores the stack, and x holds the stored value |
| Semantics.NoOpAdvances | src/interpretador.py:186-187 | VAZIO and LABEL change nothing but the program counter, which advances by one |
| Semantics.BinaryShrinks | src/interpretador.py:50-66 | a binary instruction replaces the two top values a, b by a op b and advances by one |
| Semantics.BinaryNeedsTwo | src/interpretador.py:50-52 | a binary instruction on fewer than two values fails |
| Semantics.ConditionalJump | src/interpretador.py:104-116 | JZ and JNZ always pop the condition. When it is zero (JZ) or non-zero (JNZ) they jump to the target; otherwise they continue at pc + 1 |
| Semantics.CallThenRet | src/interpretador.py:159-168 | a RET that finds the call stack as a CALL left it resumes after the CALL, with the call stack as before the CALL |
| Semantics.BareRetFails | src/interpretador.py:165-167 | RET with an empty call stack fails |
| Semantics.Run | src/interpretador.py:24-35 | the `executar` loop with a fuel bound: halt, run off the end, stop at the first failure with its line, or run out of fuel |
| Semantics.Fetch | src/interpretador.py:26-27 | the loop ends when the program counter is past the last instruction, else fetches the instruction there |
| Semantics.Perform | src/interpretador.py:29-30 | the fetched instruction is executed by its opcode and operand |
| Semantics.After | src/interpretador.py:30-35 | HALT ends the run, an exception ends it with the 1-based line, anything else continues with less fuel |
| Semantics.RunStep | src/interpretador.py:26-35 | a turn of the loop executes the instruction at pc, then stops, fails at its line + 1, or goes on from the new state |
| Semantics.RunAfterStep | src/interpretador.py:29-35 | a reply of the single-step method and the state after it continue, halt or fail the run as the loop does |
| Semantics.StepInvariants | src/interpretador.py:37-192 | a continuing step keeps the call-stack bound and only extends the output |
| Semantics.RunBounds | src/interpretador.py:24-35 | a whole run keeps the call stack within 1000, only appends to the output, and finishes normally only with pc past the program |
| Semantics.RunMoreFuel | src/interpretador.py:26-31 | a run that ended for a reason other than fuel ends the same way with any more fuel |
| Engine.Interpreter.constructor | src/interpretador.py:9-16 | the new machine has pc 0, empty stacks, store, output and program |
| Engine.Interpreter.LoadProgram | src/interpretador.py:18-22 | a parse error leaves the object unchanged. Otherwise the program is the parsed lines, and loading succeeds exactly when no label is duplicated; then pc is 0 and the label map holds exactly the declared labels with their indices; otherwise the error is `DuplicateLabel` naming the first label declared a second time |
| Engine.Interpreter.ExecuteInstruction | src/interpretador.py:37-192 | the reply is False for HALT, True or the fault for the others, and the new state agrees with the step the semantics prescribes |
| Engine.Interpreter.ExecutePush | src/interpretador.py:41-43 | PUSH as `PushStep` prescribes |
| Engine.Interpreter.ExecutePop | src/interpretador.py:45-47 | POP as `PopStep` prescribes |
| Engine.Interpreter.ExecuteBinary | src/interpretador.py:50-156 | the binary instructions as `BinaryStep` prescribes, through the stack's pop and push |
| Engine.Interpreter.ExecuteNeg | src/interpretador.py:84-87 | NEG as `NegStep` prescribes |
| Engine.Interpreter.ExecuteStore | src/interpretador.py:90-93 | STORE as `StoreStep` prescribes, through the store's `Store` |
| Engine.Interpreter.ExecuteLoad | src/interpretador.py:95-98 | LOAD as `LoadStep` prescribes, through the store's `Load` |
| Engine.Interpreter.ExecuteJump | src/interpretador.py:101-102 | JMP as `JumpTo` prescribes |
| Engine.Interpreter.ExecuteBranch | src/interpretador.py:104-116 | JZ and JNZ as `BranchStep` prescribes |
| Engine.Interpreter.ExecuteCall | src/interpretador.py:159-163 | CALL as `CallStep` prescribes |
| Engine.Interpreter.ExecuteRet | src/interpretador.py:165-168 | RET as `RetStep` prescribes |
| Engine.Interpreter.ExecutePrint | src/interpretador.py:171-176 | PRINT as `PrintStep` prescribes: the top is appended to the output and stays on the stack |
| Engine.Interpreter.ExecuteRead | src/interpretador.py:178-184 | READ as `ReadStep` prescribes: one input line consumed and pushed as an integer, or a failure |
| Engine.Interpreter.Cycle | src/interpretador.py:27-35 | one turn of the loop moves the run one step, stops it at HALT, or fails it at the instruction's 1-based line |
| Engine.Interpreter.Execute | src/interpretador.py:24-35 | the loop's outcome and output are those of `Run`; unless it failed, the final state is `Run`'s too |
| Programs.QuotientPrintsThree | src/interpretador.py:68-74 | `PUSH 10 / PUSH 3 / DIV / PRINT / HALT` prints 3 and halts |
| Programs.ZeroDivisorFails | src/interpretador.py:68-72 | `PUSH 1 / PUSH 0 / DIV / HALT` fails at line 3 with division by zero, having printed nothing |
| Programs.EqualityPrints | src/interpretador.py:122-126 | `PUSH a / PUSH b / EQ / PRINT / HALT` prints 1 when a equals b and 0 otherwise |
| Programs.UnknownInstruction | src/interpretador.py:189-190 | an instruction `FOO` fails at line 1, naming the opcode |
| Programs.RetWithoutCallFails | src/interpretador.py:165-167 | a lone `RET` fails at line 1 |
| Programs.SubroutineLabelsFound | src/instrucoes.py:43-51 | the hand-written label map of the subroutine program is the one `encontrar_labels` builds |
| Programs.SubroutineReturns | src/interpretador.py:159-168 | a subroutine called with CALL returns with RET to the instruction after the CALL, with the call stack empty again |
| Programs.RunawayLabelsFound | src/instrucoes.py:43-51 | the hand-written label map of the self-calling program is the one `encontrar_labels` builds |
| Programs.RunawayFails | src/interpretador.py:159-163 | a label followed by a CALL to itself fails at line 2 with the depth error once the call stack holds exactly 1000 addresses, leaving stack and output untouched |
| Programs.RunawayFromStart | src/interpretador.py:159-163 | from the start, that program fails after exactly 1000 successful calls |

## Left out

- File reading is not modelled: `parsear_arquivo` (src/instrucoes.py:5-9) and the file argument of `carregar_programa`. `Engine.Interpreter.LoadProgram` takes the file's lines.
- `main` (src/interpretador.py:210-225) is process plumbing and is not modelled.
- The stderr message and `sys.exit(1)` of `executar` are not modelled; a failure is the outcome `Failed(line, fault)`. Exception message texts are not modelled either; each exception is one constructor of `Fault` or `LoadFault`.
- `__str__` of `Pilha` and `Memoria` only produces debug text.
- Engine.Interpreter.ExecuteInstruction: after a fault only the output is stated, not the rest of the state. The run stops there, and Python may already have popped operands or pushed a return address.
- Engine.Interpreter.Execute: a failed run's final state is not stated beyond its output, for the same reason.
- Semantics.RunBounds: the run is bounded by a fuel count. Python's loop may never end; such a run is `OutOfFuel` for every fuel. `Semantics.RunMoreFuel` shows that fuel never changes any other outcome.
- Semantics.PushStep: PUSH of a decimal, a name or no operand is the fault `UnsupportedValue`. Python would push the float, string or `None`, and later arithmetic would mix types. Values are integers throughout.
- Semantics.TruncDiv: the quotient is truncated exactly. Python divides in floating point (src/interpretador.py:73), so:
  - for operands beyond 2^53, `int(a / b)` can differ from the exact quotient;
  - when the quotient is beyond the float range, Python raises OverflowError and the run fails at that line. DIV of 10^400 by 1 is an example; the model pushes the quotient instead.
- Parser.Classify: a decimal operand is kept as its text; floats are not modelled. Python compares keys by numeric value, and the model compares them as operands. So:
  - two decimals Python would equate (`1.0`, `1.00`) are distinct keys in the model;
  - an integer and an equal decimal (`1`, `1.0`) are distinct keys too, as `Num(1)` and `Dec("1.0")`;
  - `LABEL 1` followed by `LABEL 1.0` is a duplicate label in Python (`src/instrucoes.py:48-49`) but not in the model;
  - `STORE 1` followed by `LOAD 1.0` succeeds in Python (`src/memoria.py:13-15`) but fails with an undefined variable in the model.
- Parser.Classify: the digit test is ASCII-only. Python's `isdigit` also accepts other Unicode digits.
- Strings.ParseInt: ASCII digits only. `int()`'s underscores between digits and its non-ASCII digits are not modelled.
- Strings.ParseInt: Python's limit on integer-string conversion is not modelled. Since Python 3.11, and in the 3.7-3.10 security releases, `int()` refuses more than 4300 digits. So:
  - a `PUSH` literal that long makes loading fail in Python (src/instrucoes.py:36) but is `Num(n)` in the model;
  - READ of such a line fails in Python (src/interpretador.py:180), while the model pushes the number;
  - `Strings.ParseIntOfIntToString` holds for every integer of the model, beyond that limit too;
  - the same limit applies to `str()`, so PRINT of a value with more than 4300 digits fails in Python (see the next line).
- Semantics.PrintStep: PRINT of an integer with more than 4300 digits appends it to the output in the model. `print` at src/interpretador.py:175 raises ValueError for it since Python 3.11 (and in the 3.7-3.10 security releases); `executar` catches that at src/interpretador.py:33 and the run fails at that line. Such a value is reachable, for example a MUL loop that builds 10^4301.
- Strings.Upper: ASCII letters only. Python's `upper()` also maps non-ASCII letters.
- PRINT writes the value to an output sequence; console formatting is not modelled. Floats do not arise, since values are integers. The digit limit of integer-to-string conversion does arise: see the "Semantics.PrintStep:" line.
- READ's blocking `input()` is modelled as a supplied sequence of input lines. Python's `EOFError` at the end of input is the fault `EndOfInput`.
- Values on the stack and in the store are integers. `Pilha` and `Memoria` hold any Python object.
- The example programs of `Programs` are written as parsed instructions. `Parser.FormatRoundTrip` relates instructions to their source lines in general; the parse of these particular lines is not stated.
