/** Lowering worked through on small programs. */
module LoweringExamples {
  import opened Text
  import opened Syntax
  import opened Lowering

  lemma SmallNames()
    ensures TempName(1) == "t1" && TempName(2) == "t2"
    ensures LabelName(1) == "L1" && LabelName(2) == "L2"
  {
    assert Decimal(1) == "1";
    assert Decimal(2) == "2";
  }

  /** Instructions render line by line. */
  lemma RenderedLines(code: seq<Instr>, lines: seq<string>)
    requires |code| == |lines| && forall k :: 0 <= k < |code| ==> Render(code[k]) == lines[k]
    ensures Rendered(code) == lines
  {
  }

  /** `x := 1 + 2 * 3`: the outer sum takes t1 before the product takes
      t2, but the product is emitted first. */
  lemma ProductFirst()
    ensures var ast := [Assign("x", BinOp("+", Number("1"), BinOp("*", Number("2"), Number("3"))))];
      Rendered(LowerBlock(ast, 0, 0).code) == ["t2 := 2 * 3", "t1 := 1 + t2", "x := t1"]
  {
    ProductLowered();
    ProductLines();
  }

  lemma ProductLines()
    ensures Rendered([Compute(2, "2", "*", "3"), Compute(1, "1", "+", TempName(2)), Copy("x", TempName(1))])
      == ["t2 := 2 * 3", "t1 := 1 + t2", "x := t1"]
  {
    var code := [Compute(2, "2", "*", "3"), Compute(1, "1", "+", TempName(2)), Copy("x", TempName(1))];
    var lines := ["t2 := 2 * 3", "t1 := 1 + t2", "x := t1"];
    SmallNames();
    assert Render(code[0]) == lines[0];
    assert Render(code[1]) == lines[1];
    assert Render(code[2]) == lines[2];
    RenderedLines(code, lines);
  }

  lemma ProductLowered()
    ensures var ast := [Assign("x", BinOp("+", Number("1"), BinOp("*", Number("2"), Number("3"))))];
      LowerBlock(ast, 0, 0).code
        == [Compute(2, "2", "*", "3"), Compute(1, "1", "+", TempName(2)), Copy("x", TempName(1))]
  {
    var product := BinOp("*", Number("2"), Number("3"));
    var sum := BinOp("+", Number("1"), product);
    var ast := [Assign("x", sum)];
    assert LowerNode(product, 1, 0) == Lowered([Compute(2, "2", "*", "3")], Some(TempName(2)), 2, 0);
    assert LowerNode(sum, 0, 0)
      == Lowered([Compute(2, "2", "*", "3"), Compute(1, "1", "+", TempName(2))], Some(TempName(1)), 2, 0);
    assert ast[..0] == [];
  }

  /** `x := a && b`: the logical operator lowers to nothing and its value
      is None. */
  lemma LogicalIsNone()
    ensures Rendered(LowerBlock([Assign("x", LogOp("&&", Identifier("a"), Identifier("b")))], 0, 0).code)
      == ["x := None"]
  {
    var ast := [Assign("x", LogOp("&&", Identifier("a"), Identifier("b")))];
    assert ast[..0] == [];
    assert LowerBlock(ast, 0, 0).code == [Copy("x", "None")];
    RenderedLines([Copy("x", "None")], ["x := None"]);
  }

  /** `repeat y := y + 1 until y > 10`: start label, body, condition,
      jump back, and an end label nothing jumps to. */
  lemma RepeatLayout()
    ensures var loop := Loop([Assign("y", BinOp("+", Identifier("y"), Number("1")))],
                             Compare(">", Identifier("y"), Number("10")));
      Rendered(LowerBlock([loop], 0, 0).code)
        == ["L1:", "t1 := y + 1", "y := t1", "t2 := y > 10", "if t2 goto L1", "L2:"]
  {
    var a := [Mark(1), Compute(1, "y", "+", "1"), Copy("y", TempName(1))];
    var b := [Compute(2, "y", ">", "10"), JumpIf(TempName(2), 1), Mark(2)];
    RepeatLowered();
    assert a + b == [Mark(1), Compute(1, "y", "+", "1"), Copy("y", TempName(1)), Compute(2, "y", ">", "10"),
                     JumpIf(TempName(2), 1), Mark(2)];
    RenderedConcat(a, b);
    RepeatLines();
  }

  lemma RepeatLines()
    ensures Rendered([Mark(1), Compute(1, "y", "+", "1"), Copy("y", TempName(1))]) == ["L1:", "t1 := y + 1", "y := t1"]
    ensures Rendered([Compute(2, "y", ">", "10"), JumpIf(TempName(2), 1), Mark(2)]) == ["t2 := y > 10", "if t2 goto L1", "L2:"]
  {
    SmallNames();
    RenderedLines([Mark(1), Compute(1, "y", "+", "1"), Copy("y", TempName(1))], ["L1:", "t1 := y + 1", "y := t1"]);
    RepeatLinesTail();
  }

  lemma RepeatLinesTail()
    ensures Rendered([Compute(2, "y", ">", "10"), JumpIf(TempName(2), 1), Mark(2)]) == ["t2 := y > 10", "if t2 goto L1", "L2:"]
  {
    SmallNames();
    RenderedLines([Compute(2, "y", ">", "10"), JumpIf(TempName(2), 1), Mark(2)], ["t2 := y > 10", "if t2 goto L1", "L2:"]);
  }

  lemma RepeatLowered()
    ensures var loop := Loop([Assign("y", BinOp("+", Identifier("y"), Number("1")))],
                             Compare(">", Identifier("y"), Number("10")));
      LowerBlock([loop], 0, 0).code
        == [Mark(1), Compute(1, "y", "+", "1"), Copy("y", TempName(1)), Compute(2, "y", ">", "10"),
            JumpIf(TempName(2), 1), Mark(2)]
  {
    var body := [Assign("y", BinOp("+", Identifier("y"), Number("1")))];
    var cond := Compare(">", Identifier("y"), Number("10"));
    var loop := Loop(body, cond);
    assert body[..0] == [];
    assert [loop][..0] == [];
    assert LowerBlock(body, 0, 2) == Lowered([Compute(1, "y", "+", "1"), Copy("y", TempName(1))], None, 1, 2);
    assert LowerNode(cond, 1, 2) == Lowered([Compute(2, "y", ">", "10")], Some(TempName(2)), 2, 2);
  }

  /** `? x > 0 do y := 1 : y := 2 end`: the condition first, then its
      two labels, then the blocks. */
  lemma IfElseLayout()
    ensures var node := If(Compare(">", Identifier("x"), Number("0")), [Assign("y", Number("1"))], [Assign("y", Number("2"))]);
      Rendered(LowerBlock([node], 0, 0).code)
        == ["t1 := x > 0", "if not t1 goto L1", "y := 1", "goto L2", "L1:", "y := 2", "L2:"]
  {
    var a := [Compute(1, "x", ">", "0"), JumpUnless(TempName(1), 1), Copy("y", "1")];
    var b := [Jump(2), Mark(1), Copy("y", "2"), Mark(2)];
    IfElseLowered();
    assert a + b == [Compute(1, "x", ">", "0"), JumpUnless(TempName(1), 1), Copy("y", "1"), Jump(2), Mark(1),
                     Copy("y", "2"), Mark(2)];
    RenderedConcat(a, b);
    IfElseLines();
  }

  lemma IfElseLines()
    ensures Rendered([Compute(1, "x", ">", "0"), JumpUnless(TempName(1), 1), Copy("y", "1")])
      == ["t1 := x > 0", "if not t1 goto L1", "y := 1"]
    ensures Rendered([Jump(2), Mark(1), Copy("y", "2"), Mark(2)]) == ["goto L2", "L1:", "y := 2", "L2:"]
  {
    SmallNames();
    RenderedLines([Compute(1, "x", ">", "0"), JumpUnless(TempName(1), 1), Copy("y", "1")],
                  ["t1 := x > 0", "if not t1 goto L1", "y := 1"]);
    IfElseLinesTail();
  }

  lemma IfElseLinesTail()
    ensures Rendered([Jump(2), Mark(1), Copy("y", "2"), Mark(2)]) == ["goto L2", "L1:", "y := 2", "L2:"]
  {
    SmallNames();
    RenderedLines([Jump(2), Mark(1), Copy("y", "2"), Mark(2)], ["goto L2", "L1:", "y := 2", "L2:"]);
  }

  lemma IfElseLowered()
    ensures var node := If(Compare(">", Identifier("x"), Number("0")), [Assign("y", Number("1"))], [Assign("y", Number("2"))]);
      LowerBlock([node], 0, 0).code
        == [Compute(1, "x", ">", "0"), JumpUnless(TempName(1), 1), Copy("y", "1"), Jump(2), Mark(1),
            Copy("y", "2"), Mark(2)]
  {
    var cond := Compare(">", Identifier("x"), Number("0"));
    var node := If(cond, [Assign("y", Number("1"))], [Assign("y", Number("2"))]);
    assert [node][..0] == [];
    assert [Assign("y", Number("1"))][..0] == [];
    assert [Assign("y", Number("2"))][..0] == [];
    assert LowerNode(cond, 0, 0) == Lowered([Compute(1, "x", ">", "0")], Some(TempName(1)), 1, 0);
    assert LowerBlock([Assign("y", Number("1"))], 1, 2) == Lowered([Copy("y", "1")], None, 1, 2);
    assert LowerBlock([Assign("y", Number("2"))], 1, 2) == Lowered([Copy("y", "2")], None, 1, 2);
  }

  /** A function without parameters, whose body is a bare return, lowers
      to its opening and closing lines only. */
  lemma EmptyFunction()
    ensures Rendered(LowerBlock([FuncDef("f", [], [Return(Some(Identifier("x")))])], 0, 0).code)
      == ["func f():", "end f"]
  {
    var f := FuncDef("f", [], [Return(Some(Identifier("x")))]);
    assert [f][..0] == [];
    assert f.body[..0] == [];
    assert LowerBlock(f.body, 0, 0) == Lowered([], None, 0, 0);
    assert LowerBlock([f], 0, 0).code == [FuncBegin("f", []), FuncEnd("f")];
    RenderedLines([FuncBegin("f", []), FuncEnd("f")], ["func f():", "end f"]);
  }

  /** Parameters are listed with ", " between them. */
  lemma FunctionParameters()
    ensures Rendered(LowerBlock([FuncDef("g", ["a", "b"], [])], 0, 0).code)
      == ["func g(a, b):", "end g"]
  {
    var g := FuncDef("g", ["a", "b"], []);
    assert [g][..0] == [];
    assert LowerBlock([g], 0, 0).code == [FuncBegin("g", ["a", "b"]), FuncEnd("g")];
    ParameterList();
    RenderedLines([FuncBegin("g", ["a", "b"]), FuncEnd("g")], ["func g(a, b):", "end g"]);
  }

  lemma ParameterList()
    ensures Join(", ", ["a", "b"]) == "a, b"
  {
    assert ["a", "b"][1..] == ["b"];
  }

  /** A logged string keeps the quotes of its token and gets a second
      pair around them. */
  lemma StringLogQuoted()
    ensures Rendered(LowerBlock([Log(Some("\"hi\""), None)], 0, 0).code) == ["log \"\"hi\"\""]
  {
    assert [Log(Some("\"hi\""), None)][..0] == [];
    assert LowerBlock([Log(Some("\"hi\""), None)], 0, 0).code == [LogText("\"hi\"")];
    RenderedLines([LogText("\"hi\"")], ["log \"\"hi\"\""]);
  }
}
