/**
 * The instruction parser (src/instrucoes.py): one instruction per source
 * line, and the map from label to instruction index.
 */
module Parser {
  import opened Results
  import opened Strings

  /** The optional operand of an instruction, as the parser classifies it. */
  datatype Operand =
    | NoArg              // Python's None: the line has no operand
    | Num(n: int)        // an integer literal
    | Dec(text: string)  // a decimal literal (Python makes it a float); kept as text
    | Name(s: string)    // any other text: a label, a variable name or raw text

  /** (op, arg, line): the upper-cased opcode, the operand and the 0-based line index. */
  datatype Instruction = Instruction(op: string, arg: Operand, line: nat)

  /** The errors that stop a program from being loaded. */
  datatype LoadFault =
    | MalformedNumber(line: nat, text: string)  // int() or float() raised ValueError
    | DuplicateLabel(name: Operand)            // "Label duplicado"

  /** arg.replace('-', '').replace('.', '').isdigit(): only digits, '-' and '.', and some digit. */
  predicate NumericShape(a: string) {
    && (forall k :: 0 <= k < |a| ==> IsDigit(a[k]) || a[k] == '-' || a[k] == '.')
    && (exists k :: 0 <= k < |a| && IsDigit(a[k]))
  }

  /** On numeric-shaped text, float() succeeds exactly when a '-' can only lead and there is one '.'. */
  predicate IsDecimalText(a: string) {
    var body := if a != [] && a[0] == '-' then a[1..] else a;
    '-' !in body && '.' in body && '.' !in body[IndexOf(body, '.') + 1..]
  }

  /** The operand conversion of src/instrucoes.py:35-36 (an argument is never empty). */
  function Classify(a: string, i: nat): (r: Result<Operand, LoadFault>)
    ensures !NumericShape(a) ==> r == Ok(Name(a))
    ensures r.Err? ==> NumericShape(a) && r.error == MalformedNumber(i, a)
    ensures r.Ok? && r.value.Num? ==> NumericShape(a) && '.' !in a && ParseInt(a) == Some(r.value.n)
    ensures r.Ok? && r.value.Dec? ==> NumericShape(a) && '.' in a && r.value.text == a
    ensures NumericShape(a) && '.' !in a ==>
      (r.Ok? <==> ParseInt(a).Some?) && (r.Ok? ==> r.value == Num(ParseInt(a).value))
    ensures NumericShape(a) && '.' in a ==>
      (r.Ok? <==> IsDecimalText(a)) && (r.Ok? ==> r.value == Dec(a))
  {
    if !NumericShape(a) then Ok(Name(a))
    else if '.' in a then
      if IsDecimalText(a) then Ok(Dec(a)) else Err(MalformedNumber(i, a))
    else
      match ParseInt(a)
      case Some(n) => Ok(Num(n))
      case None => Err(MalformedNumber(i, a))
  }

  /** A line that is empty or a comment once stripped. */
  predicate IsBlank(text: string) {
    var t := Strip(text);
    t == [] || t[0] == '#'
  }

  /** src/instrucoes.py:26-38: classify a stripped, comment-free, non-empty line. */
  function ParseCode(code: string, i: nat): (r: Result<Instruction, LoadFault>)
    requires code != [] && !IsSpace(code[0])
    ensures r.Ok? ==> r.value.line == i
    ensures r.Err? ==> r.error.MalformedNumber? && r.error.line == i
    ensures code[|code| - 1] == ':' ==> r == Ok(Instruction("LABEL", Name(Strip(code[..|code| - 1])), i))
  {
    if code[|code| - 1] == ':' then
      Ok(Instruction("LABEL", Name(Strip(code[..|code| - 1])), i))
    else
      var parts := SplitOnce(code);
      var op := Upper(parts[0]);
      if |parts| == 1 then Ok(Instruction(op, NoArg, i))
      else
        match Classify(parts[1], i)
        case Ok(a) => Ok(Instruction(op, a, i))
        case Err(e) => Err(e)
  }

  /** The body of the loop of parsear_linhas for the line at index i. */
  function ParseLine(text: string, i: nat): (r: Result<Instruction, LoadFault>)
    ensures r.Ok? ==> r.value.line == i
    ensures r.Err? ==> r.error.MalformedNumber? && r.error.line == i
    ensures IsBlank(text) ==> r == Ok(Instruction("VAZIO", NoArg, i))
  {
    var t := Strip(text);
    if t == [] || t[0] == '#' then Ok(Instruction("VAZIO", NoArg, i))
    else if '#' in t then
      var k := IndexOf(t, '#');
      StripSpaces(t[..k]);
      assert !AllSpace(t[..k]) by { assert t[..k][0] == t[0]; }
      ParseCode(Strip(t[..k]), i)
    else
      ParseCode(t, i)
  }

  /** The values of rs in order, or the first error among them. */
  function Collect<T, E>(rs: seq<Result<T, E>>): Result<seq<T>, E> {
    if rs == [] then Ok([])
    else
      match Collect(rs[..|rs| - 1])
      case Err(e) => Err(e)
      case Ok(prefix) =>
        (match rs[|rs| - 1]
         case Err(e) => Err(e)
         case Ok(v) => Ok(prefix + [v]))
  }

  /** Collect succeeds exactly when every result does, keeps their order, and otherwise reports the first error. */
  lemma {:induction false} CollectResults<T, E>(rs: seq<Result<T, E>>)
    ensures var r := Collect(rs);
      && (r.Ok? <==> forall k :: 0 <= k < |rs| ==> rs[k].Ok?)
      && (r.Ok? ==> |r.value| == |rs| && forall k :: 0 <= k < |rs| ==> rs[k] == Ok(r.value[k]))
      && (r.Err? ==> exists k :: 0 <= k < |rs| && rs[k] == Err(r.error) && forall j :: 0 <= j < k ==> rs[j].Ok?)
  {
    if rs != [] {
      var n := |rs| - 1;
      var front := rs[..n];
      CollectResults(front);
      assert forall k :: 0 <= k < n ==> front[k] == rs[k];
      var c := Collect(front);
      if c.Ok? && rs[n].Ok? {
        var extended := c.value + [rs[n].value];
        forall k | 0 <= k < |rs| ensures rs[k] == Ok(extended[k]) {
          if k < n {
            assert extended[k] == c.value[k];
          }
        }
      }
    }
  }

  /** The result of the loop body of parsear_linhas for every line. */
  function ParsedLines(lines: seq<string>): (rs: seq<Result<Instruction, LoadFault>>)
    ensures |rs| == |lines|
    ensures forall k :: 0 <= k < |lines| ==> rs[k] == ParseLine(lines[k], k)
  {
    seq(|lines|, k requires 0 <= k < |lines| => ParseLine(lines[k], k))
  }

  /**
   * What parsear_linhas computes: it succeeds exactly when every line
   * parses, with the instruction of line k at index k, and otherwise fails
   * with the error of the first line that does not parse.
   */
  lemma ParseAllLines(lines: seq<string>)
    ensures var r := Collect(ParsedLines(lines));
      && (r.Ok? <==> forall k :: 0 <= k < |lines| ==> ParseLine(lines[k], k).Ok?)
      && (r.Ok? ==> |r.value| == |lines| && forall k :: 0 <= k < |lines| ==> r.value[k].line == k && ParseLine(lines[k], k) == Ok(r.value[k]))
      && (r.Err? ==> exists k :: 0 <= k < |lines| && ParseLine(lines[k], k) == Err(r.error)
                                && forall j :: 0 <= j < k ==> ParseLine(lines[j], j).Ok?)
  {
    CollectResults(ParsedLines(lines));
  }

  /** parsear_linhas: one instruction per line, in order, or the first conversion error. */
  method ParseLines(lines: seq<string>) returns (r: Result<seq<Instruction>, LoadFault>)
    ensures r == Collect(ParsedLines(lines))
  {
    ghost var rs := ParsedLines(lines);
    var instructions: seq<Instruction> := [];
    for i := 0 to |lines|
      invariant Collect(rs[..i]) == Ok(instructions)
    {
      var p := ParseLine(lines[i], i);
      assert rs[..i + 1][..i] == rs[..i];
      if p.Err? {
        RestFails(rs, i + 1);
        return Err(p.error);
      }
      instructions := instructions + [p.value];
    }
    assert rs[..|lines|] == rs;
    r := Ok(instructions);
  }

  /** Once a prefix of rs fails, the whole of rs fails with the same error. */
  lemma {:induction false} RestFails<T, E>(rs: seq<Result<T, E>>, n: nat)
    requires n <= |rs| && Collect(rs[..n]).Err?
    ensures Collect(rs) == Collect(rs[..n])
    decreases |rs| - n
  {
    if n < |rs| {
      assert rs[..n + 1][..n] == rs[..n];
      RestFails(rs, n + 1);
    } else {
      assert rs[..n] == rs;
    }
  }

  /** Instruction k of prog declares the label a. */
  predicate IsLabelAt(prog: seq<Instruction>, k: int, a: Operand) {
    0 <= k < |prog| && prog[k].op == "LABEL" && prog[k].arg == a
  }

  ghost predicate Declares(prog: seq<Instruction>, a: Operand) {
    exists k :: IsLabelAt(prog, k, a)
  }

  /** Two LABEL instructions of prog declare the same label. */
  ghost predicate HasDuplicateLabel(prog: seq<Instruction>) {
    exists i, j :: 0 <= i < j < |prog| && prog[i].op == "LABEL" && prog[j].op == "LABEL" && prog[i].arg == prog[j].arg
  }

  /**
   * encontrar_labels: maps every declared label to the index of its LABEL
   * instruction; fails on the first label declared a second time.
   */
  method FindLabels(prog: seq<Instruction>) returns (r: Result<map<Operand, nat>, LoadFault>)
    ensures r.Ok? <==> !HasDuplicateLabel(prog)
    ensures r.Ok? ==> forall a :: a in r.value <==> Declares(prog, a)
    ensures r.Ok? ==> forall a :: a in r.value ==> IsLabelAt(prog, r.value[a], a)
    ensures r.Err? ==> r.error.DuplicateLabel?
    ensures r.Err? ==> exists j :: IsLabelAt(prog, j, r.error.name) && Declares(prog[..j], r.error.name)
                                   && !HasDuplicateLabel(prog[..j])
  {
    var labels: map<Operand, nat> := map[];
    for idx := 0 to |prog|
      invariant forall a :: a in labels <==> Declares(prog[..idx], a)
      invariant forall a :: a in labels ==> IsLabelAt(prog, labels[a], a) && labels[a] < idx
      invariant !HasDuplicateLabel(prog[..idx])
    {
      var ins := prog[idx];
      if ins.op == "LABEL" {
        if ins.arg in labels {
          assert IsLabelAt(prog[..idx], labels[ins.arg], ins.arg);
          return Err(DuplicateLabel(ins.arg));
        }
        labels := labels[ins.arg := idx];
      }
      assert prog[..idx + 1] == prog[..idx] + [ins];
      forall a | Declares(prog[..idx + 1], a) ensures a in labels {
        var k :| IsLabelAt(prog[..idx + 1], k, a);
        if k < idx { assert IsLabelAt(prog[..idx], k, a); }
      }
      forall a | a in labels ensures Declares(prog[..idx + 1], a) {
        assert IsLabelAt(prog[..idx + 1], labels[a], a);
      }
      assert !HasDuplicateLabel(prog[..idx + 1]) by {
        var p := prog[..idx + 1];
        if ins.op == "LABEL" {
          forall i, j | 0 <= i < j < |p| && p[i].op == "LABEL" && p[j].op == "LABEL"
            ensures p[i].arg != p[j].arg
          {
            if j < idx {
              assert prog[..idx][i] == p[i] && prog[..idx][j] == p[j];
            } else {
              assert IsLabelAt(prog[..idx], i, p[i].arg);
            }
          }
        } else {
          forall i, j | 0 <= i < j < |p| && p[i].op == "LABEL" && p[j].op == "LABEL"
            ensures p[i].arg != p[j].arg
          {
            if j < idx {
              assert prog[..idx][i] == p[i] && prog[..idx][j] == p[j];
            }
          }
        }
      }
    }
    assert prog[..|prog|] == prog;
    return Ok(labels);
  }

  // ---------------------------------------------------------------------
  // Properties of a single line

  /** A line without comment is classified as its stripped text. */
  lemma ParseLineNoComment(text: string, i: nat)
    requires Strip(text) != [] && Strip(text)[0] != '#' && '#' !in Strip(text)
    ensures ParseLine(text, i) == ParseCode(Strip(text), i)
  {
  }

  /** A line with a comment is classified as the stripped text before the first '#'. */
  lemma ParseLineComment(text: string, k: nat, i: nat)
    requires Strip(text) != [] && Strip(text)[0] != '#' && '#' in Strip(text)
    requires k == IndexOf(Strip(text), '#')
    requires Strip(Strip(text)[..k]) != []
    ensures ParseLine(text, i) == ParseCode(Strip(Strip(text)[..k]), i)
  {
  }

  /** '#' does not occur in a suffix of a string without '#'. */
  lemma NoHashInSuffix(s: string, n: nat)
    requires '#' !in s && n <= |s|
    ensures '#' !in s[n..] && '#' !in s[..n]
  {
    assert forall j :: 0 <= j < |s| - n ==> s[n..][j] == s[n + j];
    assert forall j :: 0 <= j < n ==> s[..n][j] == s[j];
  }

  /** The first occurrence of c is the one with no c before it. */
  lemma {:induction false} IndexOfAt(t: string, c: char, p: nat)
    requires p < |t| && t[p] == c && c !in t[..p]
    ensures IndexOf(t, c) == p
  {
    if p > 0 {
      assert t[..p][0] == t[0];
      assert t[1..][..p - 1] == t[..p][1..];
      IndexOfAt(t[1..], c, p - 1);
    }
  }

  /** A comment stays a comment, non-empty, once right-stripped. */
  lemma CommentTail(comment: string)
    ensures RStrip("#" + comment) != [] && RStrip("#" + comment)[0] == '#'
  {
    var tail := "#" + comment;
    RStripSpaces(tail);
    assert !AllSpace(tail) by { assert !IsSpace(tail[0]); }
    var rt := RStrip(tail);
    RStripPrefix(tail);
    assert rt != [] && rt[0] == tail[0];
  }

  /** Stripping a line with a comment after code keeps the code's left-stripped text. */
  lemma StripWithComment(code: string, comment: string)
    requires !AllSpace(code)
    ensures LStrip(code) != []
    ensures Strip(code + "#" + comment) == LStrip(code) + RStrip("#" + comment)
    ensures RStrip("#" + comment) != [] && RStrip("#" + comment)[0] == '#'
  {
    LStripSpaces(code);
    var l := LStrip(code);
    var tail := "#" + comment;
    assert code + "#" + comment == code + tail;
    LStripAppend(code, tail);
    CommentTail(comment);
    RStripAppend(l, tail);
  }

  /** The stripped code before a comment is non-empty, starts with no '#' and holds none. */
  lemma StrippedCode(code: string)
    requires '#' !in code && !AllSpace(code)
    ensures Strip(code) != [] && Strip(code)[0] != '#' && '#' !in Strip(code)
    ensures Strip(LStrip(code)) == Strip(code)
  {
    LStripSpaces(code);
    LStripSuffix(code);
    var l := LStrip(code);
    NoHashInSuffix(code, |code| - |l|);
    assert !AllSpace(l) by { assert !IsSpace(l[0]); }
    RStripSpaces(l);
    RStripPrefix(l);
    var r := RStrip(l);
    assert r[0] == l[0];
    NoHashInSuffix(l, |r|);
    LStripIdempotent(code);
  }

  /** Where the comment starts in a stripped commented line, and what precedes it. */
  lemma CommentSplit(code: string, comment: string)
    requires '#' !in code && !AllSpace(code)
    ensures var t := Strip(code + "#" + comment);
      && t != [] && t[0] != '#' && '#' in t
      && IndexOf(t, '#') == |LStrip(code)|
      && Strip(t[..|LStrip(code)|]) == Strip(code)
      && Strip(code) != [] && Strip(code)[0] != '#' && '#' !in Strip(code)
  {
    StripWithComment(code, comment);
    LStripSuffix(code);
    var l := LStrip(code);
    NoHashInSuffix(code, |code| - |l|);
    var t := l + RStrip("#" + comment);
    assert t[|l|] == '#' && t[0] == l[0] && t[..|l|] == l;
    IndexOfAt(t, '#', |l|);
    StrippedCode(code);
  }

  /** Everything from the first '#' on is ignored. */
  lemma CommentDropped(code: string, comment: string, i: nat)
    requires '#' !in code && !AllSpace(code)
    ensures ParseLine(code + "#" + comment, i) == ParseLine(code, i)
  {
    CommentSplit(code, comment);
    ParseLineComment(code + "#" + comment, |LStrip(code)|, i);
    ParseLineNoComment(code, i);
  }

  /** The stripped text of a line "name:". */
  lemma StripLabelLine(name: string)
    ensures Strip(name + ":") == LStrip(name) + ":"
  {
    var l := LStrip(name);
    LStripAppend(name, ":");
    var t := l + ":";
    assert LStrip(name + ":") == t by {
      if l == [] {
        assert !IsSpace(':');
      }
    }
    assert t[|t| - 1] == ':';
    RStripTrimmed(t);
  }

  /** A line "name:" declares the label name, stripped. */
  lemma LabelDeclaration(name: string, i: nat)
    requires '#' !in name
    ensures ParseLine(name + ":", i) == Ok(Instruction("LABEL", Name(Strip(name)), i))
  {
    StripLabelLine(name);
    var t := LStrip(name) + ":";
    assert '#' !in t by {
      LStripSuffix(name);
      NoHashInSuffix(name, |name| - |LStrip(name)|);
    }
    assert t[0] != '#';
    ParseLineNoComment(name + ":", i);
    assert t[..|t| - 1] == LStrip(name);
    LStripIdempotent(name);
  }

  /** A line "op, white space, rest": the opcode is op upper-cased and the operand is rest, classified. */
  lemma OperationWithOperand(op: string, sep: string, rest: string, i: nat)
    requires op != [] && NoSpace(op) && '#' !in op
    requires sep != [] && AllSpace(sep)
    requires rest != [] && !IsSpace(rest[0]) && !IsSpace(rest[|rest| - 1])
    requires '#' !in rest && rest[|rest| - 1] != ':'
    ensures ParseLine(op + sep + rest, i) ==
      match Classify(rest, i)
      case Ok(a) => Ok(Instruction(Upper(op), a, i))
      case Err(e) => Err(e)
  {
    var s := op + sep + rest;
    assert s[0] == op[0] && s[|s| - 1] == rest[|rest| - 1];
    StripTrimmed(s);
    assert '#' !in sep by { assert !IsSpace('#'); }
    assert '#' !in s;
    SplitOnceJoined(op, sep, rest);
  }

  /** A line holding a single token is an operation without operand. */
  lemma OperationAlone(op: string, i: nat)
    requires op != [] && NoSpace(op) && '#' !in op && op[|op| - 1] != ':'
    ensures ParseLine(op, i) == Ok(Instruction(Upper(op), NoArg, i))
  {
    StripTrimmed(op);
    SplitOnceToken(op);
  }

  /** The characters of str(n): an optional '-' followed by digits. */
  lemma IntToStringShape(n: int)
    ensures var s := IntToString(n);
      && NumericShape(s) && '.' !in s && '#' !in s
      && !IsSpace(s[0]) && IsDigit(s[|s| - 1])
  {
    var s := IntToString(n);
    var d := NatToString(if n < 0 then -n else n);
    if n < 0 {
      assert forall k :: 1 <= k < |s| ==> s[k] == d[k - 1];
    }
    assert s[|s| - 1] == d[|d| - 1];
    assert forall k :: 0 <= k < |s| ==> IsDigit(s[k]) || s[k] == '-';
  }

  /** An integer operand is read back as that integer. */
  lemma IntegerOperand(op: string, n: int, i: nat)
    requires op != [] && NoSpace(op) && '#' !in op
    ensures ParseLine(op + " " + IntToString(n), i) == Ok(Instruction(Upper(op), Num(n), i))
  {
    IntToStringShape(n);
    ParseIntOfIntToString(n);
    OperationWithOperand(op, " ", IntToString(n), i);
  }

  /**
   * An operand made of digits and '-' that passes the digit test but has a
   * '-' after its first character (such as "1-2") makes int() raise.
   */
  lemma MisplacedMinus(op: string, a: string, i: nat)
    requires op != [] && NoSpace(op) && '#' !in op
    requires NumericShape(a) && '.' !in a && '-' in a[1..]
    ensures ParseLine(op + " " + a, i) == Err(MalformedNumber(i, a))
  {
    assert a[|a| - 1] == '-' || IsDigit(a[|a| - 1]);
    TrimmedMargins(a);
    var k :| 0 <= k < |a[1..]| && a[1..][k] == '-';
    assert !IsDigits(a) by { assert a[k + 1] == '-'; }
    assert !IsDigits(a[1..]);
    OperationWithOperand(op, " ", a, i);
  }

  // ---------------------------------------------------------------------
  // A formatter that ParseLine inverts

  /** An opcode that upper-casing leaves as it is. */
  predicate IsOpToken(op: string) {
    op != [] && NoSpace(op) && '#' !in op && forall k :: 0 <= k < |op| ==> !IsLower(op[k])
  }

  /** Operand text that survives stripping and comment removal unchanged. */
  predicate IsOperandText(a: string) {
    a != [] && !IsSpace(a[0]) && !IsSpace(a[|a| - 1]) && '#' !in a && a[|a| - 1] != ':'
  }

  /** The source line of an instruction. */
  function Format(ins: Instruction): string {
    if ins.op == "VAZIO" && ins.arg == NoArg then ""
    else if ins.op == "LABEL" && ins.arg.Name? then ins.arg.s + ":"
    else
      match ins.arg
      case NoArg => ins.op
      case Num(n) => ins.op + " " + IntToString(n)
      case Dec(t) => ins.op + " " + t
      case Name(s) => ins.op + " " + s
  }

  /** The instructions the text format can express. */
  predicate Formattable(ins: Instruction) {
    if ins.op == "VAZIO" && ins.arg == NoArg then true
    else if ins.op == "LABEL" && ins.arg.Name? then '#' !in ins.arg.s && Strip(ins.arg.s) == ins.arg.s
    else
      && IsOpToken(ins.op)
      && match ins.arg
         case NoArg => ins.op[|ins.op| - 1] != ':'
         case Num(_) => true
         case Dec(t) => NumericShape(t) && '.' in t && IsDecimalText(t)
         case Name(s) => IsOperandText(s) && !NumericShape(s)
  }

  lemma UpperOfOpToken(op: string)
    requires IsOpToken(op)
    ensures Upper(op) == op
  {
  }

  /** Parsing the formatted line gives the instruction back, at the new line index. */
  lemma FormatRoundTrip(ins: Instruction, i: nat)
    requires Formattable(ins)
    ensures ParseLine(Format(ins), i) == Ok(ins.(line := i))
  {
    if ins.op == "VAZIO" && ins.arg == NoArg {
    } else if ins.op == "LABEL" && ins.arg.Name? {
      LabelDeclaration(ins.arg.s, i);
    } else {
      FormatOperationRoundTrip(ins, i);
    }
  }

  lemma FormatOperationRoundTrip(ins: Instruction, i: nat)
    requires !(ins.op == "VAZIO" && ins.arg == NoArg) && !(ins.op == "LABEL" && ins.arg.Name?)
    requires Formattable(ins)
    ensures ParseLine(Format(ins), i) == Ok(ins.(line := i))
  {
    UpperOfOpToken(ins.op);
    match ins.arg
    case NoArg =>
      OperationAlone(ins.op, i);
    case Num(n) =>
      IntegerOperand(ins.op, n, i);
    case Dec(t) =>
      assert forall k :: 0 <= k < |t| ==> !IsSpace(t[k]) && t[k] != '#' && t[k] != ':';
      OperationWithOperand(ins.op, " ", t, i);
    case Name(s) =>
      OperationWithOperand(ins.op, " ", s, i);
  }
}
