/** What the productions of Grammar guarantee, in general and on small
    token lists that show the grammar's precedence and its quirks. */
module GrammarLaws {
  import opened Text
  import opened Lexing
  import opened Syntax
  import opened Grammar

  /** A statement list stops at a terminator and only there: it is empty
      when it starts on one, and a successful list leaves the cursor on
      one. */
  lemma {:induction false} StatementListStops(ts: seq<Token>, pos: nat)
    requires At(ts, pos)
    ensures IsTerminator(ts[pos]) ==> StatementList(ts, pos) == Ok([], pos)
    ensures StatementList(ts, pos).Ok? ==> IsTerminator(ts[StatementList(ts, pos).next])
    decreases |ts| - pos
  {
    if !IsTerminator(ts[pos]) {
      match Statement(ts, pos)
      case Ok(_, p) => StatementListStops(ts, p);
      case Err(_) =>
    }
  }

  /** The tokens a statement can start with. */
  predicate StartsStatement(t: Token) {
    || t.cat == IDENTIFIER
    || t.cat == QUESTION
    || (t.cat == KEYWORD && t.text in {"repeat", "func", "log", "return"})
  }

  /** The first token decides the kind of statement, and any other first
      token is rejected with its category. */
  lemma StatementForms(ts: seq<Token>, pos: nat)
    requires At(ts, pos)
    ensures var r := Statement(ts, pos); var t := ts[pos];
      && (!StartsStatement(t) ==> r == Err(UnexpectedToken(t.cat)))
      && (r.Ok? && t.cat == IDENTIFIER ==> r.value.Assign? || r.value.FuncCall?)
      && (r.Ok? && t.cat == QUESTION ==> r.value.If?)
      && (r.Ok? && t.cat == KEYWORD && t.text == "repeat" ==> r.value.Loop?)
      && (r.Ok? && t.cat == KEYWORD && t.text == "func" ==> r.value.FuncDef?)
      && (r.Ok? && t.cat == KEYWORD && t.text == "log" ==> r.value.Log?)
      && (r.Ok? && t.cat == KEYWORD && t.text == "return" ==> r.value.Return?)
  {
  }

  /** An identifier whose text is not `(` is a primary of its own. */
  lemma PrimaryIdentifier(ts: seq<Token>, pos: nat)
    requires At(ts, pos) && ts[pos].cat == IDENTIFIER && ts[pos].text != "("
    ensures Primary(ts, pos) == Ok(Identifier(ts[pos].text), pos + 1)
  {
  }

  /** On the tokens of any source text, an identifier in an expression is
      never read as a call: the lexer never makes an IDENTIFIER whose text
      is `(`, so the call branch of `primary` is dead. */
  lemma IdentifierNeverCalls(code: string, pos: nat)
    requires pos < |Tokens(code)| && Tokens(code)[pos].cat == IDENTIFIER
    ensures WellFormed(Tokens(code)) && Primary(Tokens(code), pos) == Ok(Identifier(Tokens(code)[pos].text), pos + 1)
  {
    var ts := Tokens(code);
    TokensWellFormed(code);
    TokensShaped(code);
    assert Shaped(ts[pos]);
    assert ts[pos].text[0] != '(';
    PrimaryIdentifier(ts, pos);
  }

  /** A number, or an identifier, followed by no operator is an
      expression of every tier by itself. */
  lemma {:induction false} LoneOperand(ts: seq<Token>, pos: nat, k: nat)
    requires At(ts, pos + 1) && k < 4 && ts[pos + 1].cat != OPERATOR
    requires ts[pos].cat == NUMBER || (ts[pos].cat == IDENTIFIER && ts[pos].text != "(")
    ensures Tier(ts, pos, k) == Ok(if ts[pos].cat == NUMBER then Number(ts[pos].text) else Identifier(ts[pos].text), pos + 1)
    decreases 4 - k
  {
    if k < 3 {
      LoneOperand(ts, pos, k + 1);
    }
  }

  /** After an identifier, the second token decides: `:=` makes an
      assignment of the expression that follows, `(` a call, and anything
      else is an invalid statement. */
  lemma IdentifierStatement(ts: seq<Token>, pos: nat)
    requires At(ts, pos) && ts[pos].cat == IDENTIFIER
    ensures pos + 1 < |ts|
    ensures ts[pos + 1].cat == ASSIGN ==>
      var e := Expression(ts, pos + 2);
      Statement(ts, pos) == if e.Ok? then Ok(Assign(ts[pos].text, e.value), e.next) else Err(e.error)
    ensures ts[pos + 1].cat == DELIMITER && ts[pos + 1].text == "(" ==>
      Statement(ts, pos) == FunctionCall(ts, pos + 1, ts[pos].text)
    ensures ts[pos + 1].cat != ASSIGN && !(ts[pos + 1].cat == DELIMITER && ts[pos + 1].text == "(") ==>
      Statement(ts, pos) == Err(InvalidStatement)
  {
  }

  // Precedence and associativity of the four expression tiers.

  /** The tier whose loop builds a node: 0 for `&& ||`, 1 for comparisons,
      2 for `+ -`, 3 for `* /`, and 4 for an operand. */
  function OpTier(n: Node): nat {
    match n
    case LogOp(_, _, _) => 0
    case Compare(_, _, _) => 1
    case BinOp(op, _, _) => if op in TierOps(2) then 2 else 3
    case _ => 4
  }

  /** n is an expression of tier k or tighter, built the way the tiers
      build it: every operator node holds an operator of its own tier, the
      left operand of a tier-j operator is of tier j or tighter, so
      operators of one tier group to the left, and its right operand is of
      tier j + 1 or tighter, so looser operators never sit below tighter
      ones. */
  predicate Layered(n: Node, k: nat) {
    k <= OpTier(n) &&
    match n
    case LogOp(op, l, r) => op in TierOps(0) && Layered(l, 0) && Layered(r, 1)
    case Compare(op, l, r) => op in TierOps(1) && Layered(l, 1) && Layered(r, 2)
    case BinOp(op, l, r) => op in TierOps(OpTier(n)) && Layered(l, OpTier(n)) && Layered(r, OpTier(n) + 1)
    case Identifier(_) => true
    case Number(_) => true
    case _ => false
  }

  /** The tokens an expression tree is written with, in order. */
  function Spelling(n: Node): seq<Token> {
    match n
    case LogOp(op, l, r) => Spelling(l) + [Op(op)] + Spelling(r)
    case Compare(op, l, r) => Spelling(l) + [Op(op)] + Spelling(r)
    case BinOp(op, l, r) => Spelling(l) + [Op(op)] + Spelling(r)
    case Identifier(x) => [Id(x)]
    case Number(x) => [Num(x)]
    case _ => []
  }

  /** No token reads `(`: no parentheses, and no call. */
  predicate NoParens(ts: seq<Token>) {
    forall i :: 0 <= i < |ts| ==> ts[i].text != "("
  }

  /** Without parentheses a primary is a single identifier or number. */
  lemma PrimaryLeaf(ts: seq<Token>, pos: nat)
    requires At(ts, pos) && NoParens(ts)
    ensures var r := Primary(ts, pos);
      r.Ok? ==> (r.value.Identifier? || r.value.Number?) && Layered(r.value, 4) && Spelling(r.value) == ts[pos..r.next]
  {
    if Primary(ts, pos).Ok? {
      assert ts[pos..pos + 1] == [ts[pos]];
    }
  }

  /** The operand of tier k, read from tier k + 1 or, below `* /`, as a
      primary, is of tier k + 1 or tighter and spells what it consumed. */
  lemma {:induction false} OperandLayered(ts: seq<Token>, pos: nat, k: nat)
    requires At(ts, pos) && k < 4 && NoParens(ts)
    ensures var r := if k < 3 then Tier(ts, pos, k + 1) else Primary(ts, pos);
      r.Ok? ==> Layered(r.value, k + 1) && Spelling(r.value) == ts[pos..r.next]
    decreases |ts| - pos, 7 - 2 * k
  {
    if k < 3 {
      TierLayered(ts, pos, k + 1);
    } else {
      PrimaryLeaf(ts, pos);
    }
  }

  /** Every expression tier k parses, from a list without parentheses, a
      tree of tier k or tighter that spells exactly the tokens it
      consumed: `* /` bind tighter than `+ -`, which bind tighter than the
      comparisons, which bind tighter than `&& ||`, and every tier groups
      to the left. */
  lemma {:induction false} TierLayered(ts: seq<Token>, pos: nat, k: nat)
    requires At(ts, pos) && k < 4 && NoParens(ts)
    ensures var r := Tier(ts, pos, k);
      r.Ok? ==> Layered(r.value, k) && Spelling(r.value) == ts[pos..r.next]
    decreases |ts| - pos, 8 - 2 * k
  {
    var first := if k < 3 then Tier(ts, pos, k + 1) else Primary(ts, pos);
    if first.Ok? {
      OperandLayered(ts, pos, k);
      TierRestLayered(ts, first.next, k, first.value, pos);
    }
  }

  /** One step of the loop of tier k: the operator, then the right
      operand from the next tier, then the loop again. */
  lemma TierRestStep(ts: seq<Token>, pos: nat, k: nat, left: Node)
    requires At(ts, pos) && k < 4 && IsTierOp(k, ts[pos])
    ensures pos + 1 < |ts|
    ensures var right := if k < 3 then Tier(ts, pos + 1, k + 1) else Primary(ts, pos + 1);
      TierRest(ts, pos, k, left)
        == if right.Ok? then TierRest(ts, right.next, k, Combine(k, ts[pos].text, left, right.value))
           else Err(right.error)
  {
  }

  /** A node built by tier k from operands of the right tiers is of tier k,
      spelled left operand, operator, right operand. */
  lemma CombineLayered(k: nat, op: string, left: Node, right: Node)
    requires k < 4 && op in TierOps(k) && Layered(left, k) && Layered(right, k + 1)
    ensures Layered(Combine(k, op, left, right), k)
    ensures Spelling(Combine(k, op, left, right)) == Spelling(left) + [Op(op)] + Spelling(right)
  {
    assert OpTier(Combine(k, op, left, right)) == k;
  }

  lemma SliceAround(ts: seq<Token>, start: nat, pos: nat, q: nat)
    requires start <= pos < q <= |ts|
    ensures ts[start..q] == ts[start..pos] + [ts[pos]] + ts[pos + 1..q]
  {
  }

  /** The loop of tier k keeps its accumulated left operand of tier k and
      spelling the tokens consumed since start. */
  lemma {:induction false} TierRestLayered(ts: seq<Token>, pos: nat, k: nat, left: Node, start: nat)
    requires At(ts, pos) && k < 4 && NoParens(ts) && start <= pos
    requires Layered(left, k) && Spelling(left) == ts[start..pos]
    ensures var r := TierRest(ts, pos, k, left);
      r.Ok? ==> Layered(r.value, k) && Spelling(r.value) == ts[start..r.next]
    decreases |ts| - pos, 5
  {
    if IsTierOp(k, ts[pos]) {
      TierRestStep(ts, pos, k, left);
      var right := if k < 3 then Tier(ts, pos + 1, k + 1) else Primary(ts, pos + 1);
      if right.Ok? {
        OperandLayered(ts, pos + 1, k);
        var n := Combine(k, ts[pos].text, left, right.value);
        CombineLayered(k, ts[pos].text, left, right.value);
        SliceAround(ts, start, pos, right.next);
        assert Op(ts[pos].text) == ts[pos];
        TierRestLayered(ts, right.next, k, n, start);
      }
    }
  }

  /** An expression without parentheses is layered from the loosest tier
      and spells the tokens it consumed. */
  lemma ExpressionLayered(ts: seq<Token>, pos: nat)
    requires At(ts, pos) && NoParens(ts)
    ensures var r := Expression(ts, pos);
      r.Ok? ==> Layered(r.value, 0) && Spelling(r.value) == ts[pos..r.next]
  {
    TierLayered(ts, pos, 0);
  }

  // One tree per spelling.

  /** The tier of the operator a token spells, and 4 for any other token. */
  function TokenTier(t: Token): nat {
    if t.cat != OPERATOR then 4
    else if t.text in TierOps(0) then 0
    else if t.text in TierOps(1) then 1
    else if t.text in TierOps(2) then 2
    else if t.text in TierOps(3) then 3
    else 4
  }

  predicate IsOperatorNode(n: Node) {
    n.LogOp? || n.Compare? || n.BinOp?
  }

  /** A layered tree spells at least one token, an operand exactly one, and
      no token of it is of a looser tier than its root; the root operator
      of an operator node sits right after its left operand's spelling and
      has the root's tier. */
  lemma {:induction false} SpellingTiers(n: Node, k: nat)
    requires Layered(n, k)
    ensures |Spelling(n)| >= 1
    ensures !IsOperatorNode(n) ==> |Spelling(n)| == 1
    ensures forall i :: 0 <= i < |Spelling(n)| ==> OpTier(n) <= TokenTier(Spelling(n)[i])
    ensures IsOperatorNode(n) ==>
      var i := |Spelling(n.left)|;
      i + 1 < |Spelling(n)| && Spelling(n)[i] == Op(n.op) && TokenTier(Op(n.op)) == OpTier(n)
  {
    if IsOperatorNode(n) {
      var j := OpTier(n);
      SpellingTiers(n.left, j);
      SpellingTiers(n.right, j + 1);
      var s := Spelling(n);
      var i := |Spelling(n.left)|;
      assert s == Spelling(n.left) + [Op(n.op)] + Spelling(n.right);
      forall q | 0 <= q < |s|
        ensures j <= TokenTier(s[q])
      {
        if q < i {
          assert s[q] == Spelling(n.left)[q];
        } else if q > i {
          assert s[q] == Spelling(n.right)[q - i - 1];
        }
      }
    }
  }

  /** Two layered trees spelled with the same tokens are the same tree: the
      tiers leave no choice of root, so the parse of a list without
      parentheses is its only correctly grouped reading. */
  lemma {:induction false} LayeredUnique(a: Node, ka: nat, b: Node, kb: nat)
    requires Layered(a, ka) && Layered(b, kb) && Spelling(a) == Spelling(b)
    ensures a == b
    decreases a
  {
    SpellingTiers(a, ka);
    SpellingTiers(b, kb);
    if IsOperatorNode(a) && IsOperatorNode(b) {
      SameRoot(a, ka, b, kb);
      var j := OpTier(a);
      LayeredUnique(a.left, j, b.left, j);
      LayeredUnique(a.right, j + 1, b.right, j + 1);
    } else if !IsOperatorNode(a) && !IsOperatorNode(b) {
      assert Spelling(a)[0] == Spelling(b)[0];
    }
  }

  /** Two layered operator nodes with the same spelling have the same root
      operator, at the same place, so their operands are spelled alike. */
  lemma SameRoot(a: Node, ka: nat, b: Node, kb: nat)
    requires Layered(a, ka) && Layered(b, kb) && Spelling(a) == Spelling(b)
    requires IsOperatorNode(a) && IsOperatorNode(b)
    ensures OpTier(a) == OpTier(b) && a.op == b.op
    ensures Spelling(a.left) == Spelling(b.left) && Spelling(a.right) == Spelling(b.right)
  {
    SpellingTiers(a, ka);
    SpellingTiers(b, kb);
    var s := Spelling(a);
    var j := OpTier(a);
    var ia := |Spelling(a.left)|;
    var ib := |Spelling(b.left)|;
    assert j <= TokenTier(s[ib]) == OpTier(b);
    assert OpTier(b) <= TokenTier(s[ia]) == j;
    OperatorSpelling(a);
    OperatorSpelling(b);
    SpellingTiers(a.right, j + 1);
    SpellingTiers(b.right, j + 1);
    RootsAgree(s, Spelling(a.right), ia, j, Spelling(b.right), ib);
    assert Op(a.op) == s[ia] == Op(b.op);
  }

  /** An operator node is spelled as its left operand, its operator and its
      right operand. */
  lemma OperatorSpelling(n: Node)
    requires IsOperatorNode(n)
    ensures var s, i := Spelling(n), |Spelling(n.left)|;
      i < |s| && s[..i] == Spelling(n.left) && s[i] == Op(n.op) && s[i + 1..] == Spelling(n.right)
  {
    var s := Spelling(n);
    var i := |Spelling(n.left)|;
    assert s == Spelling(n.left) + [Op(n.op)] + Spelling(n.right);
    assert s[..i] == Spelling(n.left);
    assert s[i + 1..] == Spelling(n.right);
  }

  /** The right operand of a root of tier j spells only tokens of tier
      j + 1 or tighter, so two roots of tier j over the same tokens sit at
      the same place. */
  lemma RootsAgree(s: seq<Token>, ra: seq<Token>, ia: nat, j: nat, rb: seq<Token>, ib: nat)
    requires ia < |s| && ib < |s| && TokenTier(s[ia]) == j && TokenTier(s[ib]) == j
    requires s[ia + 1..] == ra && s[ib + 1..] == rb
    requires forall q :: 0 <= q < |ra| ==> j + 1 <= TokenTier(ra[q])
    requires forall q :: 0 <= q < |rb| ==> j + 1 <= TokenTier(rb[q])
    ensures ia == ib
  {
  }

  /** From a list without parentheses, the tree an expression parses to is
      the only tree of tier 0 that spells the tokens it consumed. */
  lemma ExpressionUnique(ts: seq<Token>, pos: nat, n: Node)
    requires At(ts, pos) && NoParens(ts)
    requires Expression(ts, pos).Ok?
    requires Layered(n, 0) && Spelling(n) == ts[pos..Expression(ts, pos).next]
    ensures n == Expression(ts, pos).value
  {
    ExpressionLayered(ts, pos);
    LayeredUnique(n, 0, Expression(ts, pos).value, 0);
  }

  // Small token lists.

  function Num(s: string): Token { Token(NUMBER, s) }
  function Id(s: string): Token { Token(IDENTIFIER, s) }
  function Op(s: string): Token { Token(OPERATOR, s) }
  function Kw(s: string): Token { Token(KEYWORD, s) }
  function Delim(s: string): Token { Token(DELIMITER, s) }

  /** `1 + 2 * 3`: `*` binds tighter than `+`. */
  lemma ProductBindsTighter()
    ensures Expression([Num("1"), Op("+"), Num("2"), Op("*"), Num("3"), EofToken], 0)
      == Ok(BinOp("+", Number("1"), BinOp("*", Number("2"), Number("3"))), 5)
  {
    var ts := [Num("1"), Op("+"), Num("2"), Op("*"), Num("3"), EofToken];
    var product := BinOp("*", Number("2"), Number("3"));
    var sum := BinOp("+", Number("1"), product);
    assert At(ts, 0);
    assert Tier(ts, 0, 3) == Ok(Number("1"), 1);
    assert Primary(ts, 4) == Ok(Number("3"), 5);
    assert TierRest(ts, 5, 3, product) == Ok(product, 5);
    assert IsTierOp(3, ts[3]);
    assert TierRest(ts, 3, 3, Number("2")) == Ok(product, 5);
    assert Tier(ts, 2, 3) == Ok(product, 5);
    assert TierRest(ts, 5, 2, sum) == Ok(sum, 5);
    assert IsTierOp(2, ts[1]);
    assert TierRest(ts, 1, 2, Number("1")) == Ok(sum, 5);
    assert Tier(ts, 0, 2) == Ok(sum, 5);
    assert Tier(ts, 0, 1) == Ok(sum, 5);
    assert Tier(ts, 0, 0) == Ok(sum, 5);
  }

  /** `a - b - c` groups to the left. */
  lemma DifferenceGroupsLeft()
    ensures Expression([Id("a"), Op("-"), Id("b"), Op("-"), Id("c"), EofToken], 0)
      == Ok(BinOp("-", BinOp("-", Identifier("a"), Identifier("b")), Identifier("c")), 5)
  {
    var ts := [Id("a"), Op("-"), Id("b"), Op("-"), Id("c"), EofToken];
    var ab := BinOp("-", Identifier("a"), Identifier("b"));
    assert At(ts, 0);
    assert Tier(ts, 0, 3) == Ok(Identifier("a"), 1);
    assert Tier(ts, 2, 3) == Ok(Identifier("b"), 3);
    assert Tier(ts, 4, 3) == Ok(Identifier("c"), 5);
    assert TierRest(ts, 3, 2, ab) == Ok(BinOp("-", ab, Identifier("c")), 5);
    assert Tier(ts, 0, 2) == Ok(BinOp("-", ab, Identifier("c")), 5);
    assert Tier(ts, 0, 1) == Ok(BinOp("-", ab, Identifier("c")), 5);
    assert Tier(ts, 0, 0) == Ok(BinOp("-", ab, Identifier("c")), 5);
  }

  /** `a < b && c`: comparisons bind tighter than `&&`. */
  lemma ComparisonBindsTighter()
    ensures Expression([Id("a"), Op("<"), Id("b"), Op("&&"), Id("c"), EofToken], 0)
      == Ok(LogOp("&&", Compare("<", Identifier("a"), Identifier("b")), Identifier("c")), 5)
  {
    var ts := [Id("a"), Op("<"), Id("b"), Op("&&"), Id("c"), EofToken];
    var less := Compare("<", Identifier("a"), Identifier("b"));
    var both := LogOp("&&", less, Identifier("c"));
    assert At(ts, 0);
    assert Tier(ts, 0, 3) == Ok(Identifier("a"), 1);
    assert Tier(ts, 0, 2) == Ok(Identifier("a"), 1);
    assert Tier(ts, 2, 3) == Ok(Identifier("b"), 3);
    assert Tier(ts, 2, 2) == Ok(Identifier("b"), 3);
    assert TierRest(ts, 1, 1, Identifier("a")) == Ok(less, 3);
    assert Tier(ts, 0, 1) == Ok(less, 3);
    LoneOperand(ts, 4, 1);
    assert TierRest(ts, 3, 0, less) == Ok(both, 5);
  }

  /** `? x > 0 do y := 1 end`: an if without its `:` fails at `end`. */
  lemma IfNeedsColon()
    ensures Statement([Token(QUESTION, "?"), Id("x"), Op(">"), Num("0"), Kw("do"),
                       Id("y"), Token(ASSIGN, ":="), Num("1"), Kw("end"), EofToken], 0)
      == Err(Expected(DELIMITER, KEYWORD))
  {
    var ts := [Token(QUESTION, "?"), Id("x"), Op(">"), Num("0"), Kw("do"),
               Id("y"), Token(ASSIGN, ":="), Num("1"), Kw("end"), EofToken];
    ColonlessCondition();
    LoneOperand(ts, 7, 0);
    assert Statement(ts, 5) == Ok(Assign("y", Number("1")), 8);
    assert StatementList(ts, 8) == Ok([], 8);
    assert [Assign("y", Number("1"))] + [] == [Assign("y", Number("1"))];
    assert StatementList(ts, 5) == Ok([Assign("y", Number("1"))], 8);
    assert IfStatement(ts, 0) == Err(Expected(DELIMITER, KEYWORD));
  }

  /** The condition `x > 0` of the example above. */
  lemma ColonlessCondition()
    ensures var ts := [Token(QUESTION, "?"), Id("x"), Op(">"), Num("0"), Kw("do"),
                       Id("y"), Token(ASSIGN, ":="), Num("1"), Kw("end"), EofToken];
      At(ts, 1) && Tier(ts, 1, 0) == Ok(Compare(">", Identifier("x"), Number("0")), 4)
  {
    var ts := [Token(QUESTION, "?"), Id("x"), Op(">"), Num("0"), Kw("do"),
               Id("y"), Token(ASSIGN, ":="), Num("1"), Kw("end"), EofToken];
    var cond := Compare(">", Identifier("x"), Number("0"));
    assert At(ts, 0);
    assert Tier(ts, 1, 3) == Ok(Identifier("x"), 2);
    assert Tier(ts, 1, 2) == Ok(Identifier("x"), 2);
    LoneOperand(ts, 3, 2);
    assert TierRest(ts, 2, 1, Identifier("x")) == Ok(cond, 4);
    assert Tier(ts, 1, 1) == Ok(cond, 4);
  }

  /** `? x end y := 1 : end`: only the category of the `do` is checked, so
      any keyword takes its place. */
  lemma AnyKeywordActsAsDo()
    ensures Statement([Token(QUESTION, "?"), Id("x"), Kw("end"), Id("y"), Token(ASSIGN, ":="),
                       Num("1"), Delim(":"), Kw("end"), EofToken], 0)
      == Ok(If(Identifier("x"), [Assign("y", Number("1"))], []), 8)
  {
    var ts := [Token(QUESTION, "?"), Id("x"), Kw("end"), Id("y"), Token(ASSIGN, ":="),
               Num("1"), Delim(":"), Kw("end"), EofToken];
    assert At(ts, 0);
    LoneOperand(ts, 1, 0);
    EndAsDoThenBlock();
    assert StatementList(ts, 7) == Ok([], 7);
    assert IfStatement(ts, 0) == Ok(If(Identifier("x"), [Assign("y", Number("1"))], []), 8);
  }

  /** The then-block `y := 1` of the example above, ended by the `:`. */
  lemma EndAsDoThenBlock()
    ensures var ts := [Token(QUESTION, "?"), Id("x"), Kw("end"), Id("y"), Token(ASSIGN, ":="),
                       Num("1"), Delim(":"), Kw("end"), EofToken];
      At(ts, 3) && StatementList(ts, 3) == Ok([Assign("y", Number("1"))], 6)
  {
    var ts := [Token(QUESTION, "?"), Id("x"), Kw("end"), Id("y"), Token(ASSIGN, ":="),
               Num("1"), Delim(":"), Kw("end"), EofToken];
    assert At(ts, 0);
    LoneOperand(ts, 5, 0);
    assert Statement(ts, 3) == Ok(Assign("y", Number("1")), 6);
    assert StatementList(ts, 6) == Ok([], 6);
    assert [Assign("y", Number("1"))] + [] == [Assign("y", Number("1"))];
  }

  /** A bare `return` as the last token fails: EOF is neither a DELIMITER
      nor a KEYWORD, so an expression is expected. */
  lemma ReturnAtEnd()
    ensures Statement([Kw("return"), EofToken], 0) == Err(UnexpectedInExpression(EOF))
  {
    var ts := [Kw("return"), EofToken];
    assert At(ts, 1);
    assert Primary(ts, 1) == Err(UnexpectedInExpression(EOF));
    assert Tier(ts, 1, 3) == Err(UnexpectedInExpression(EOF));
    assert Tier(ts, 1, 2) == Err(UnexpectedInExpression(EOF));
    assert Tier(ts, 1, 1) == Err(UnexpectedInExpression(EOF));
    assert Tier(ts, 1, 0) == Err(UnexpectedInExpression(EOF));
  }

  /** `x := 1 end y := 2`: the program stops at the first terminator and
      the tokens after it are never looked at. */
  lemma ProgramStopsAtTerminator()
    ensures Program([Id("x"), Token(ASSIGN, ":="), Num("1"), Kw("end"),
                     Id("y"), Token(ASSIGN, ":="), Num("2"), EofToken])
      == Ok([Assign("x", Number("1"))], 3)
  {
    var ts := [Id("x"), Token(ASSIGN, ":="), Num("1"), Kw("end"),
               Id("y"), Token(ASSIGN, ":="), Num("2"), EofToken];
    assert At(ts, 0);
    LoneOperand(ts, 2, 0);
    assert Statement(ts, 0) == Ok(Assign("x", Number("1")), 3);
    assert StatementList(ts, 3) == Ok([], 3);
    assert [Assign("x", Number("1"))] + [] == [Assign("x", Number("1"))];
  }
}
