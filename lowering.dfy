/** The three-address code generator of tac.py.

    LowerNode and LowerBlock say, as functions, what `process_node` and a
    `for stmt in block` loop emit for a tree, which value the node returns
    and where the two counters of the generator end up; instructions are
    kept as data (Instr) and turned into the emitted lines by Render. The
    class TacGenerator and the methods after it do the work step by step,
    as the source does, and are proved to emit exactly the rendered
    instructions. */
module Lowering {
  import opened Text
  import opened Syntax

  /** `new_temp` names the k-th temporary `t{k}`. */
  function TempName(k: nat): string {
    "t" + Decimal(k)
  }

  /** `new_label` names the k-th label `L{k}`. */
  function LabelName(k: nat): string {
    "L" + Decimal(k)
  }

  /** How an f-string shows a value that may be Python's None. */
  function Show(v: Option<string>): string {
    match v
    case Some(s) => s
    case None => "None"
  }

  /** One emitted instruction; temporaries and labels by number. */
  datatype Instr =
    | Copy(target: string, source: string)
    | Compute(temp: nat, left: string, op: string, right: string)
    | JumpUnless(cond: string, dest: nat)
    | JumpIf(cond: string, dest: nat)
    | Jump(dest: nat)
    | Mark(dest: nat)
    | LogText(text: string)
    | LogValue(arg: string)
    | FuncBegin(name: string, params: seq<string>)
    | FuncEnd(name: string)

  /** The line each instruction is emitted as. A logged string keeps the
      quotes of its token and gets a second pair. */
  function Render(i: Instr): string {
    match i
    case Copy(x, v) => x + " := " + v
    case Compute(k, a, op, b) => TempName(k) + " := " + a + " " + op + " " + b
    case JumpUnless(c, k) => "if not " + c + " goto " + LabelName(k)
    case JumpIf(c, k) => "if " + c + " goto " + LabelName(k)
    case Jump(k) => "goto " + LabelName(k)
    case Mark(k) => LabelName(k) + ":"
    case LogText(s) => "log \"" + s + "\""
    case LogValue(v) => "log " + v
    case FuncBegin(name, params) => "func " + name + "(" + Join(", ", params) + "):"
    case FuncEnd(name) => "end " + name
  }

  function Rendered(code: seq<Instr>): seq<string> {
    seq(|code|, k requires 0 <= k < |code| => Render(code[k]))
  }

  lemma RenderedConcat(a: seq<Instr>, b: seq<Instr>)
    ensures Rendered(a + b) == Rendered(a) + Rendered(b)
  {
    assert forall k :: 0 <= k < |a + b| ==> Rendered(a + b)[k] == (Rendered(a) + Rendered(b))[k];
  }

  /** Appending instructions appends their lines. */
  lemma RenderedAppend(a: seq<Instr>, b: seq<Instr>)
    ensures Rendered(a + b) == Rendered(a) + Rendered(b)
    ensures |a| == 1 ==> Rendered(a) == [Render(a[0])]
    ensures |b| == 1 ==> Rendered(b) == [Render(b[0])]
    ensures |b| == 2 ==> Rendered(b) == [Render(b[0]), Render(b[1])]
  {
    RenderedConcat(a, b);
  }

  /** What lowering a node leaves behind: the instructions, the value the
      node stands for (None where `process_node` returns None) and the two
      counters afterwards. */
  datatype Lowered = Lowered(code: seq<Instr>, value: Option<string>, temps: nat, labels: nat)

  /** `process_node` on n, with the counters at t and l: a branch per kind
      of node; `logop`, `return` and `func_call` nodes emit nothing and
      stand for None. */
  function LowerNode(n: Node, t: nat, l: nat): Lowered
    decreases Size(n), 1
  {
    match n
    case Assign(_, _) => LowerAssign(n, t, l)
    case BinOp(_, _, _) => LowerBinary(n, t, l)
    case Compare(_, _, _) => LowerBinary(n, t, l)
    case If(_, _, _) => LowerIf(n, t, l)
    case Loop(_, _) => LowerLoop(n, t, l)
    case Log(_, _) => LowerLog(n, t, l)
    case FuncDef(_, _, _) => LowerFuncDef(n, t, l)
    case Identifier(x) => Lowered([], Some(x), t, l)
    case Number(s) => Lowered([], Some(s), t, l)
    case LogOp(_, _, _) => Lowered([], None, t, l)
    case Return(_) => Lowered([], None, t, l)
    case FuncCall(_, _) => Lowered([], None, t, l)
  }

  function LowerAssign(n: Node, t: nat, l: nat): Lowered
    requires n.Assign?
    decreases Size(n), 0
  {
    var v := LowerNode(n.value, t, l);
    Lowered(v.code + [Copy(n.target, Show(v.value))], None, v.temps, v.labels)
  }

  /** A binary node takes its temporary before its operands are lowered. */
  function LowerBinary(n: Node, t: nat, l: nat): Lowered
    requires n.BinOp? || n.Compare?
    decreases Size(n), 0
  {
    var lv := LowerNode(n.left, t + 1, l);
    var rv := LowerNode(n.right, lv.temps, lv.labels);
    Lowered(lv.code + rv.code + [Compute(t + 1, Show(lv.value), n.op, Show(rv.value))],
            Some(TempName(t + 1)), rv.temps, rv.labels)
  }

  /** The two labels of an if are taken after its condition is lowered. */
  function LowerIf(n: Node, t: nat, l: nat): Lowered
    requires n.If?
    decreases Size(n), 0
  {
    var cv := LowerNode(n.cond, t, l);
    var elseLabel := cv.labels + 1;
    var endLabel := cv.labels + 2;
    var tb := LowerBlock(n.thenBlock, cv.temps, endLabel);
    var eb := LowerBlock(n.elseBlock, tb.temps, tb.labels);
    Lowered(cv.code + [JumpUnless(Show(cv.value), elseLabel)] + tb.code
              + [Jump(endLabel), Mark(elseLabel)] + eb.code + [Mark(endLabel)],
            None, eb.temps, eb.labels)
  }

  /** The two labels of a loop are taken before anything else. */
  function LowerLoop(n: Node, t: nat, l: nat): Lowered
    requires n.Loop?
    decreases Size(n), 0
  {
    var startLabel := l + 1;
    var endLabel := l + 2;
    var bb := LowerBlock(n.body, t, endLabel);
    var cv := LowerNode(n.cond, bb.temps, bb.labels);
    Lowered([Mark(startLabel)] + bb.code + cv.code + [JumpIf(Show(cv.value), startLabel), Mark(endLabel)],
            None, cv.temps, cv.labels)
  }

  /** A non-empty string is logged as text; otherwise the expression (or
      None) is. */
  function LowerLog(n: Node, t: nat, l: nat): Lowered
    requires n.Log?
    decreases Size(n), 0
  {
    if n.content.Some? && n.content.value != "" then Lowered([LogText(n.content.value)], None, t, l)
    else
      var v := LowerExpression(n.arg, t, l);
      Lowered(v.code + [LogValue(Show(v.value))], None, v.temps, v.labels)
  }

  function LowerFuncDef(n: Node, t: nat, l: nat): Lowered
    requires n.FuncDef?
    decreases Size(n), 0
  {
    var bb := LowerBlock(n.body, t, l);
    Lowered([FuncBegin(n.name, n.params)] + bb.code + [FuncEnd(n.name)], None, bb.temps, bb.labels)
  }

  /** `process_expression`: a missing expression stands for None. */
  function LowerExpression(e: Option<Node>, t: nat, l: nat): Lowered
    decreases OptionSize(e), 2
  {
    match e
    case Some(x) => LowerNode(x, t, l)
    case None => Lowered([], None, t, l)
  }

  /** The statements of a block lowered one after the other, the counters
      running on from each to the next. */
  function LowerBlock(ns: seq<Node>, t: nat, l: nat): Lowered
    decreases BlockSize(ns), 3
  {
    if ns == [] then Lowered([], None, t, l)
    else
      var init := LowerBlock(ns[..|ns| - 1], t, l);
      var last := LowerNode(ns[|ns| - 1], init.temps, init.labels);
      Lowered(init.code + last.code, None, last.temps, last.labels)
  }

  // How the rendered code of each kind of node splits into the pieces
  // `process_node` emits one after the other.

  lemma RenderedAssign(n: Node, t: nat, l: nat)
    requires n.Assign?
    ensures var v := LowerNode(n.value, t, l);
      Rendered(LowerAssign(n, t, l).code) == Rendered(v.code) + [n.target + " := " + Show(v.value)]
  {
    var v := LowerNode(n.value, t, l);
    RenderedAppend(v.code, [Copy(n.target, Show(v.value))]);
  }

  /** Lines already written, then the lines of a + b, read as the lines of
      a followed by those of b. */
  lemma Emitted(prefix: seq<string>, a: seq<Instr>, b: seq<Instr>)
    ensures prefix + Rendered(a + b) == prefix + Rendered(a) + Rendered(b)
    ensures |b| == 1 ==> Rendered(b) == [Render(b[0])]
    ensures |b| == 2 ==> prefix + Rendered(a) + Rendered(b) == prefix + Rendered(a) + [Render(b[0])] + [Render(b[1])]
  {
    RenderedConcat(a, b);
    assert prefix + (Rendered(a) + Rendered(b)) == prefix + Rendered(a) + Rendered(b);
  }

  /** The lines of a binary node, after whatever was written before: the
      operands' lines, then the instruction for its temporary. */
  lemma RenderedBinary(n: Node, t: nat, l: nat, prefix: seq<string>)
    requires n.BinOp? || n.Compare?
    ensures var lv := LowerNode(n.left, t + 1, l); var rv := LowerNode(n.right, lv.temps, lv.labels);
      prefix + Rendered(LowerBinary(n, t, l).code)
        == prefix + Rendered(lv.code) + Rendered(rv.code) + [TempName(t + 1) + " := " + Show(lv.value) + " " + n.op + " " + Show(rv.value)]
  {
    var lv := LowerNode(n.left, t + 1, l);
    var rv := LowerNode(n.right, lv.temps, lv.labels);
    Emitted(prefix, lv.code + rv.code, [Compute(t + 1, Show(lv.value), n.op, Show(rv.value))]);
    Emitted(prefix, lv.code, rv.code);
  }

  /** The lines of an `if`, after whatever was written before, in the order
      the generator writes them. */
  lemma RenderedIf(n: Node, t: nat, l: nat, prefix: seq<string>)
    requires n.If?
    ensures var cv := LowerNode(n.cond, t, l);
      var tb := LowerBlock(n.thenBlock, cv.temps, cv.labels + 2);
      var eb := LowerBlock(n.elseBlock, tb.temps, tb.labels);
      prefix + Rendered(LowerIf(n, t, l).code)
        == prefix + Rendered(cv.code) + ["if not " + Show(cv.value) + " goto " + LabelName(cv.labels + 1)]
          + Rendered(tb.code) + ["goto " + LabelName(cv.labels + 2)] + [LabelName(cv.labels + 1) + ":"]
          + Rendered(eb.code) + [LabelName(cv.labels + 2) + ":"]
  {
    var cv := LowerNode(n.cond, t, l);
    var tb := LowerBlock(n.thenBlock, cv.temps, cv.labels + 2);
    var eb := LowerBlock(n.elseBlock, tb.temps, tb.labels);
    var ju, j, m, m2 := JumpUnless(Show(cv.value), cv.labels + 1), Jump(cv.labels + 2), Mark(cv.labels + 1), Mark(cv.labels + 2);
    assert LowerIf(n, t, l).code == cv.code + [ju] + tb.code + [j, m] + eb.code + [m2];
    EmittedSix(prefix, cv.code, ju, tb.code, j, m, eb.code, m2);
  }

  /** The rendering of the shape of an `if`, piece by piece. */
  lemma EmittedSix(prefix: seq<string>, c: seq<Instr>, ju: Instr, tb: seq<Instr>, j: Instr, m: Instr, eb: seq<Instr>, m2: Instr)
    ensures prefix + Rendered(c + [ju] + tb + [j, m] + eb + [m2])
      == prefix + Rendered(c) + [Render(ju)] + Rendered(tb) + [Render(j)] + [Render(m)] + Rendered(eb) + [Render(m2)]
  {
    var p1 := c + [ju];
    var p2 := p1 + tb;
    var p3 := p2 + [j, m];
    var p4 := p3 + eb;
    Emitted(prefix, p4, [m2]);
    Emitted(prefix, p3, eb);
    Emitted(prefix, p2, [j, m]);
    Emitted(prefix, p1, tb);
    Emitted(prefix, c, [ju]);
  }

  /** The lines of a `loop`, after whatever was written before, in the
      order the generator writes them. */
  lemma RenderedLoop(n: Node, t: nat, l: nat, prefix: seq<string>)
    requires n.Loop?
    ensures var bb := LowerBlock(n.body, t, l + 2);
      var cv := LowerNode(n.cond, bb.temps, bb.labels);
      prefix + Rendered(LowerLoop(n, t, l).code)
        == prefix + [LabelName(l + 1) + ":"] + Rendered(bb.code) + Rendered(cv.code)
          + ["if " + Show(cv.value) + " goto " + LabelName(l + 1)] + [LabelName(l + 2) + ":"]
  {
    var bb := LowerBlock(n.body, t, l + 2);
    var cv := LowerNode(n.cond, bb.temps, bb.labels);
    var p1 := [Mark(l + 1)] + bb.code;
    var p2 := p1 + cv.code;
    Emitted(prefix, p2, [JumpIf(Show(cv.value), l + 1), Mark(l + 2)]);
    Emitted(prefix, p1, cv.code);
    Emitted(prefix, [Mark(l + 1)], bb.code);
    assert Rendered([Mark(l + 1)]) == [Render(Mark(l + 1))];
  }

  lemma RenderedLog(n: Node, t: nat, l: nat)
    requires n.Log?
    ensures var v := LowerExpression(n.arg, t, l);
      Rendered(LowerLog(n, t, l).code)
        == if n.content.Some? && n.content.value != "" then ["log \"" + n.content.value + "\""]
           else Rendered(v.code) + ["log " + Show(v.value)]
  {
    var v := LowerExpression(n.arg, t, l);
    RenderedAppend(v.code, [LogValue(Show(v.value))]);
    RenderedAppend([], [LogText(if n.content.Some? then n.content.value else "")]);
  }

  lemma RenderedFuncDef(n: Node, t: nat, l: nat)
    requires n.FuncDef?
    ensures var bb := LowerBlock(n.body, t, l);
      Rendered(LowerFuncDef(n, t, l).code)
        == ["func " + n.name + "(" + Join(", ", n.params) + "):"] + Rendered(bb.code) + ["end " + n.name]
  {
    var bb := LowerBlock(n.body, t, l);
    RenderedAppend([FuncBegin(n.name, n.params)], bb.code);
    RenderedAppend([FuncBegin(n.name, n.params)] + bb.code, [FuncEnd(n.name)]);
  }

  /** `TACGenerator`: two counters and the list of emitted lines. */
  class TacGenerator {
    var tempCount: nat
    var labelCount: nat
    var code: seq<string>

    constructor ()
      ensures tempCount == 0 && labelCount == 0 && code == []
    {
      tempCount := 0;
      labelCount := 0;
      code := [];
    }

    /** `new_temp` */
    method NewTemp() returns (name: string)
      modifies this
      ensures tempCount == old(tempCount) + 1 && name == TempName(tempCount)
      ensures labelCount == old(labelCount) && code == old(code)
    {
      tempCount := tempCount + 1;
      name := "t" + Decimal(tempCount);
    }

    /** `new_label` */
    method NewLabel() returns (name: string)
      modifies this
      ensures labelCount == old(labelCount) + 1 && name == LabelName(labelCount)
      ensures tempCount == old(tempCount) && code == old(code)
    {
      labelCount := labelCount + 1;
      name := "L" + Decimal(labelCount);
    }

    /** `emit` */
    method Emit(instruction: string)
      modifies this
      ensures code == old(code) + [instruction]
      ensures tempCount == old(tempCount) && labelCount == old(labelCount)
    {
      code := code + [instruction];
    }

    /** `get_code`: the lines joined by newlines, from which the lines come
        back whenever none of them holds a newline of its own. */
    method GetCode() returns (text: string)
      ensures text == Join("\n", code)
      ensures |code| > 0 && (forall i :: 0 <= i < |code| ==> '\n' !in code[i]) ==> Split(text) == code
    {
      text := Join("\n", code);
      if |code| > 0 && forall i :: 0 <= i < |code| ==> '\n' !in code[i] {
        SplitJoin(code);
      }
    }
  }

  /** `process_node`: emits what LowerNode says, moves the counters to
      where it says, and returns the node's value. Each branch of the
      source that emits code is a method of its own below. */
  method ProcessNode(n: Node, tac: TacGenerator) returns (value: Option<string>)
    modifies tac
    ensures var r := LowerNode(n, old(tac.tempCount), old(tac.labelCount));
      && value == r.value && tac.tempCount == r.temps && tac.labelCount == r.labels
      && tac.code == old(tac.code) + Rendered(r.code)
    decreases Size(n), 1
  {
    match n {
      case Assign(_, _) =>
        value := ProcessAssign(n, tac);
      case BinOp(_, _, _) =>
        value := ProcessBinary(n, tac);
      case Compare(_, _, _) =>
        value := ProcessBinary(n, tac);
      case If(_, _, _) =>
        value := ProcessIf(n, tac);
      case Loop(_, _) =>
        value := ProcessLoop(n, tac);
      case Log(_, _) =>
        value := ProcessLog(n, tac);
      case FuncDef(_, _, _) =>
        value := ProcessFuncDef(n, tac);
      case Identifier(x) =>
        value := Some(x);
      case Number(s) =>
        value := Some(s);
      case LogOp(_, _, _) =>
        value := None;
      case Return(_) =>
        value := None;
      case FuncCall(_, _) =>
        value := None;
    }
  }

  /** The `assign` branch. */
  method ProcessAssign(n: Node, tac: TacGenerator) returns (value: Option<string>)
    requires n.Assign?
    modifies tac
    ensures var r := LowerAssign(n, old(tac.tempCount), old(tac.labelCount));
      && value == r.value && tac.tempCount == r.temps && tac.labelCount == r.labels
      && tac.code == old(tac.code) + Rendered(r.code)
    decreases Size(n), 0
  {
    RenderedAssign(n, tac.tempCount, tac.labelCount);
    var v := ProcessExpression(Some(n.value), tac);
    tac.Emit(n.target + " := " + Show(v));
    value := None;
  }

  /** The `binop` and `compare` branches: the temporary first, then the
      operands, then the instruction. */
  method ProcessBinary(n: Node, tac: TacGenerator) returns (value: Option<string>)
    requires n.BinOp? || n.Compare?
    modifies tac
    ensures var r := LowerBinary(n, old(tac.tempCount), old(tac.labelCount));
      && value == r.value && tac.tempCount == r.temps && tac.labelCount == r.labels
      && tac.code == old(tac.code) + Rendered(r.code)
    decreases Size(n), 0
  {
    RenderedBinary(n, tac.tempCount, tac.labelCount, tac.code);
    var temp := tac.NewTemp();
    var left := ProcessExpression(Some(n.left), tac);
    var right := ProcessExpression(Some(n.right), tac);
    tac.Emit(temp + " := " + Show(left) + " " + n.op + " " + Show(right));
    value := Some(temp);
  }

  /** The `if` branch. */
  method ProcessIf(n: Node, tac: TacGenerator) returns (value: Option<string>)
    requires n.If?
    modifies tac
    ensures var r := LowerIf(n, old(tac.tempCount), old(tac.labelCount));
      && value == r.value && tac.tempCount == r.temps && tac.labelCount == r.labels
      && tac.code == old(tac.code) + Rendered(r.code)
    decreases Size(n), 0
  {
    RenderedIf(n, tac.tempCount, tac.labelCount, tac.code);
    var c := ProcessExpression(Some(n.cond), tac);
    var elseLabel := tac.NewLabel();
    var endLabel := tac.NewLabel();
    tac.Emit("if not " + Show(c) + " goto " + elseLabel);
    ProcessBlock(n.thenBlock, tac);
    tac.Emit("goto " + endLabel);
    tac.Emit(elseLabel + ":");
    ProcessBlock(n.elseBlock, tac);
    tac.Emit(endLabel + ":");
    value := None;
  }

  /** The `loop` branch. */
  method ProcessLoop(n: Node, tac: TacGenerator) returns (value: Option<string>)
    requires n.Loop?
    modifies tac
    ensures var r := LowerLoop(n, old(tac.tempCount), old(tac.labelCount));
      && value == r.value && tac.tempCount == r.temps && tac.labelCount == r.labels
      && tac.code == old(tac.code) + Rendered(r.code)
    decreases Size(n), 0
  {
    RenderedLoop(n, tac.tempCount, tac.labelCount, tac.code);
    var startLabel := tac.NewLabel();
    var endLabel := tac.NewLabel();
    tac.Emit(startLabel + ":");
    ProcessBlock(n.body, tac);
    var c := ProcessExpression(Some(n.cond), tac);
    tac.Emit("if " + Show(c) + " goto " + startLabel);
    tac.Emit(endLabel + ":");
    value := None;
  }

  /** The `log` branch: a non-empty string is logged in quotes, anything
      else through `process_expression`. */
  method ProcessLog(n: Node, tac: TacGenerator) returns (value: Option<string>)
    requires n.Log?
    modifies tac
    ensures var r := LowerLog(n, old(tac.tempCount), old(tac.labelCount));
      && value == r.value && tac.tempCount == r.temps && tac.labelCount == r.labels
      && tac.code == old(tac.code) + Rendered(r.code)
    decreases Size(n), 0
  {
    RenderedLog(n, tac.tempCount, tac.labelCount);
    if n.content.Some? && n.content.value != "" {
      tac.Emit("log \"" + n.content.value + "\"");
    } else {
      var v := ProcessExpression(n.arg, tac);
      tac.Emit("log " + Show(v));
    }
    value := None;
  }

  /** The `func_def` branch. */
  method ProcessFuncDef(n: Node, tac: TacGenerator) returns (value: Option<string>)
    requires n.FuncDef?
    modifies tac
    ensures var r := LowerFuncDef(n, old(tac.tempCount), old(tac.labelCount));
      && value == r.value && tac.tempCount == r.temps && tac.labelCount == r.labels
      && tac.code == old(tac.code) + Rendered(r.code)
    decreases Size(n), 0
  {
    RenderedFuncDef(n, tac.tempCount, tac.labelCount);
    tac.Emit("func " + n.name + "(" + Join(", ", n.params) + "):");
    ProcessBlock(n.body, tac);
    tac.Emit("end " + n.name);
    value := None;
  }

  /** `process_expression` */
  method ProcessExpression(e: Option<Node>, tac: TacGenerator) returns (value: Option<string>)
    modifies tac
    ensures var r := LowerExpression(e, old(tac.tempCount), old(tac.labelCount));
      && value == r.value && tac.tempCount == r.temps && tac.labelCount == r.labels
      && tac.code == old(tac.code) + Rendered(r.code)
    decreases OptionSize(e), 2
  {
    if e.Some? {
      value := ProcessNode(e.value, tac);
    } else {
      value := None;
    }
  }

  /** A `for stmt in block: process_node(stmt, tac)` loop. */
  method ProcessBlock(ns: seq<Node>, tac: TacGenerator)
    modifies tac
    ensures var r := LowerBlock(ns, old(tac.tempCount), old(tac.labelCount));
      && tac.tempCount == r.temps && tac.labelCount == r.labels
      && tac.code == old(tac.code) + Rendered(r.code)
    decreases BlockSize(ns), 3
  {
    var i := 0;
    while i < |ns|
      invariant i <= |ns|
      invariant var r := LowerBlock(ns[..i], old(tac.tempCount), old(tac.labelCount));
        && tac.tempCount == r.temps && tac.labelCount == r.labels
        && tac.code == old(tac.code) + Rendered(r.code)
    {
      ElementSize(ns, i);
      ghost var before := LowerBlock(ns[..i], old(tac.tempCount), old(tac.labelCount));
      var _ := ProcessNode(ns[i], tac);
      assert ns[..i + 1][..i] == ns[..i];
      RenderedConcat(before.code, LowerNode(ns[i], before.temps, before.labels).code);
      i := i + 1;
    }
    assert ns[..|ns|] == ns;
  }

  /** `generate_tac`: the TAC text of a program is its lowered statements,
      rendered and joined by newlines. */
  method GenerateTac(ast: seq<Node>) returns (text: string)
    ensures text == Join("\n", Rendered(LowerBlock(ast, 0, 0).code))
  {
    var tac := new TacGenerator();
    ProcessBlock(ast, tac);
    assert tac.code == Rendered(LowerBlock(ast, 0, 0).code);
    text := tac.GetCode();
  }
}
