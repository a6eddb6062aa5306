/** The recursive-descent parser of parser.py, one function per
    production, as functions of the token list and the cursor position.

    A production either fails with the error it raises or succeeds with
    its node and the position of the first token it did not consume. The
    parser only ever sees token lists that end with their single EOF
    (Lexing.WellFormed), and every successful `match` of a category other
    than EOF consumes exactly one token, so a successful statement or
    expression always moves the cursor; the remaining number of tokens is
    the termination measure. */
module Grammar {
  import opened Text
  import opened Lexing
  import opened Syntax

  /** The SyntaxError messages, by the categories they name. */
  datatype ParseError =
      /** `match`: "Expected {expected}, got {got}" */
    | Expected(expected: Category, got: Category)
      /** `statement`: "Unexpected token: {got}" */
    | UnexpectedToken(got: Category)
      /** `assignment_or_function_call`: "Invalid statement" */
    | InvalidStatement
      /** `primary`: "Unexpected token in expression: {got}" */
    | UnexpectedInExpression(got: Category)

  /** What a production returns: its result and the new cursor position,
      or the error it raises. */
  datatype Outcome<T> = Ok(value: T, next: nat) | Err(error: ParseError) {
    predicate IsFailure() {
      Err?
    }

    function PropagateFailure<U>(): Outcome<U>
      requires Err?
    {
      Err(error)
    }

    function Extract(): (T, nat)
      requires Ok?
    {
      (value, next)
    }
  }

  /** A cursor into a token list produced by the lexer. */
  predicate At(ts: seq<Token>, pos: nat) {
    WellFormed(ts) && pos < |ts|
  }

  /** `match`: consumes the current token when its category is c (the
      cursor stays on EOF), and fails naming both categories otherwise. */
  function Match(ts: seq<Token>, pos: nat, c: Category): (r: Outcome<string>)
    requires At(ts, pos)
    ensures r.Ok? ==> r.next < |ts| && (c != EOF ==> r.next == pos + 1)
  {
    if ts[pos].cat == c then Ok(ts[pos].text, if pos < |ts| - 1 then pos + 1 else pos)
    else Err(Expected(c, ts[pos].cat))
  }

  /** `is_terminator`: EOF, the keywords `end` and `until`, and `:`. */
  predicate IsTerminator(t: Token) {
    || t.cat == EOF
    || (t.cat == KEYWORD && (t.text == "end" || t.text == "until"))
    || (t.cat == DELIMITER && t.text == ":")
  }

  /** The operators of the four binary tiers, loosest first. */
  function TierOps(k: nat): set<string> {
    if k == 0 then {"&&", "||"}
    else if k == 1 then {">", "<", "==", "!=", ">=", "<="}
    else if k == 2 then {"+", "-"}
    else {"*", "/"}
  }

  predicate IsTierOp(k: nat, t: Token) {
    t.cat == OPERATOR && t.text in TierOps(k)
  }

  /** The node each tier builds. */
  function Combine(k: nat, op: string, left: Node, right: Node): Node {
    if k == 0 then LogOp(op, left, right)
    else if k == 1 then Compare(op, left, right)
    else BinOp(op, left, right)
  }

  /** `statement_list`: statements up to a terminator, which it leaves in
      place. */
  function StatementList(ts: seq<Token>, pos: nat): (r: Outcome<seq<Node>>)
    requires At(ts, pos)
    ensures r.Ok? ==> pos <= r.next < |ts|
    decreases |ts| - pos, 9
  {
    if IsTerminator(ts[pos]) then Ok([], pos)
    else
      var (s, p) :- Statement(ts, pos);
      var (ss, q) :- StatementList(ts, p);
      Ok([s] + ss, q)
  }

  /** `statement`: the six statement forms, chosen by the current token. */
  function Statement(ts: seq<Token>, pos: nat): (r: Outcome<Node>)
    requires At(ts, pos)
    ensures r.Ok? ==> pos < r.next < |ts|
    decreases |ts| - pos, 8
  {
    var t := ts[pos];
    if t.cat == IDENTIFIER then AssignmentOrCall(ts, pos)
    else if t.cat == QUESTION then IfStatement(ts, pos)
    else if t.cat == KEYWORD && t.text == "repeat" then LoopStatement(ts, pos)
    else if t.cat == KEYWORD && t.text == "func" then FunctionDef(ts, pos)
    else if t.cat == KEYWORD && t.text == "log" then LogStatement(ts, pos)
    else if t.cat == KEYWORD && t.text == "return" then ReturnStatement(ts, pos)
    else Err(UnexpectedToken(t.cat))
  }

  /** `return_statement`: an expression follows unless the next token is a
      DELIMITER or a KEYWORD. */
  function ReturnStatement(ts: seq<Token>, pos: nat): (r: Outcome<Node>)
    requires At(ts, pos)
    ensures r.Ok? ==> pos < r.next < |ts|
    decreases |ts| - pos, 7
  {
    var (_, p) :- Match(ts, pos, KEYWORD);
    if ts[p].cat != DELIMITER && ts[p].cat != KEYWORD then
      var (e, q) :- Expression(ts, p);
      Ok(Return(Some(e)), q)
    else Ok(Return(None), p)
  }

  /** `assignment_or_function_call` */
  function AssignmentOrCall(ts: seq<Token>, pos: nat): (r: Outcome<Node>)
    requires At(ts, pos)
    ensures r.Ok? ==> pos < r.next < |ts|
    decreases |ts| - pos, 7
  {
    var (name, p) :- Match(ts, pos, IDENTIFIER);
    if ts[p].cat == ASSIGN then
      var p1 := Match(ts, p, ASSIGN).next;
      var (e, q) :- Expression(ts, p1);
      Ok(Assign(name, e), q)
    else if ts[p].cat == DELIMITER && ts[p].text == "(" then FunctionCall(ts, p, name)
    else Err(InvalidStatement)
  }

  /** `if_statement`: `? cond do then : else end`. */
  function IfStatement(ts: seq<Token>, pos: nat): (r: Outcome<Node>)
    requires At(ts, pos)
    ensures r.Ok? ==> pos < r.next < |ts|
    decreases |ts| - pos, 7
  {
    var (_, p1) :- Match(ts, pos, QUESTION);
    var (cond, p2) :- Expression(ts, p1);
    var (_, p3) :- Match(ts, p2, KEYWORD);
    var (thenBlock, p4) :- StatementList(ts, p3);
    var (_, p5) :- Match(ts, p4, DELIMITER);
    var (elseBlock, p6) :- StatementList(ts, p5);
    var (_, p7) :- Match(ts, p6, KEYWORD);
    Ok(If(cond, thenBlock, elseBlock), p7)
  }

  /** `loop`: `repeat body until cond`. */
  function LoopStatement(ts: seq<Token>, pos: nat): (r: Outcome<Node>)
    requires At(ts, pos)
    ensures r.Ok? ==> pos < r.next < |ts|
    decreases |ts| - pos, 7
  {
    var (_, p1) :- Match(ts, pos, KEYWORD);
    var (body, p2) :- StatementList(ts, p1);
    var (_, p3) :- Match(ts, p2, KEYWORD);
    var (cond, p4) :- Expression(ts, p3);
    Ok(Loop(body, cond), p4)
  }

  /** `log_statement`: `log ( "text" )` or `log ( expression )`. */
  function LogStatement(ts: seq<Token>, pos: nat): (r: Outcome<Node>)
    requires At(ts, pos)
    ensures r.Ok? ==> pos < r.next < |ts|
    decreases |ts| - pos, 7
  {
    var (_, p1) :- Match(ts, pos, KEYWORD);
    var (_, p2) :- Match(ts, p1, DELIMITER);
    if ts[p2].cat == STRING then
      var m := Match(ts, p2, STRING);
      var (content, p3) := (m.value, m.next);
      var (_, p4) :- Match(ts, p3, DELIMITER);
      Ok(Log(Some(content), None), p4)
    else
      var (e, p3) :- Expression(ts, p2);
      var (_, p4) :- Match(ts, p3, DELIMITER);
      Ok(Log(None, Some(e)), p4)
  }

  /** `function_def`: `func name ( params ) do body end`. */
  function FunctionDef(ts: seq<Token>, pos: nat): (r: Outcome<Node>)
    requires At(ts, pos)
    ensures r.Ok? ==> pos < r.next < |ts|
    decreases |ts| - pos, 7
  {
    var (_, p1) :- Match(ts, pos, KEYWORD);
    var (name, p2) :- Match(ts, p1, IDENTIFIER);
    var (_, p3) :- Match(ts, p2, DELIMITER);
    var (params, p4) :- ParamList(ts, p3);
    var (_, p5) :- Match(ts, p4, DELIMITER);
    var (_, p6) :- Match(ts, p5, KEYWORD);
    var (body, p7) :- StatementList(ts, p6);
    var (_, p8) :- Match(ts, p7, KEYWORD);
    Ok(FuncDef(name, params, body), p8)
  }

  /** `param_list`: identifiers separated by commas, possibly none. */
  function ParamList(ts: seq<Token>, pos: nat): (r: Outcome<seq<string>>)
    requires At(ts, pos)
    ensures r.Ok? ==> pos <= r.next < |ts|
  {
    if ts[pos].cat == IDENTIFIER then
      var m := Match(ts, pos, IDENTIFIER);
      MoreParams(ts, m.next, [m.value])
    else Ok([], pos)
  }

  /** The loop of `param_list` after the first parameter. */
  function MoreParams(ts: seq<Token>, pos: nat, params: seq<string>): (r: Outcome<seq<string>>)
    requires At(ts, pos)
    ensures r.Ok? ==> pos <= r.next < |ts|
    decreases |ts| - pos
  {
    if ts[pos].cat == DELIMITER && ts[pos].text == "," then
      var p1 := Match(ts, pos, DELIMITER).next;
      var (x, p2) :- Match(ts, p1, IDENTIFIER);
      MoreParams(ts, p2, params + [x])
    else Ok(params, pos)
  }

  /** `function_call`, entered after the name: `( args )`. */
  function FunctionCall(ts: seq<Token>, pos: nat, name: string): (r: Outcome<Node>)
    requires At(ts, pos)
    ensures r.Ok? ==> pos < r.next < |ts|
    decreases |ts| - pos, 7
  {
    var (_, p1) :- Match(ts, pos, DELIMITER);
    var (args, p2) :- ArgList(ts, p1);
    var (_, p3) :- Match(ts, p2, DELIMITER);
    Ok(FuncCall(name, args), p3)
  }

  /** `arg_list`: expressions separated by commas, none when the next
      token is a DELIMITER. */
  function ArgList(ts: seq<Token>, pos: nat): (r: Outcome<seq<Node>>)
    requires At(ts, pos)
    ensures r.Ok? ==> pos <= r.next < |ts|
    decreases |ts| - pos, 7
  {
    if ts[pos].cat != DELIMITER then
      var (first, p) :- Expression(ts, pos);
      MoreArgs(ts, p, [first])
    else Ok([], pos)
  }

  /** The loop of `arg_list` after the first argument. */
  function MoreArgs(ts: seq<Token>, pos: nat, args: seq<Node>): (r: Outcome<seq<Node>>)
    requires At(ts, pos)
    ensures r.Ok? ==> pos <= r.next < |ts|
    decreases |ts| - pos, 7
  {
    if ts[pos].cat == DELIMITER && ts[pos].text == "," then
      var p1 := Match(ts, pos, DELIMITER).next;
      var (e, p2) :- Expression(ts, p1);
      MoreArgs(ts, p2, args + [e])
    else Ok(args, pos)
  }

  /** `expression`, the loosest tier. */
  function Expression(ts: seq<Token>, pos: nat): (r: Outcome<Node>)
    requires At(ts, pos)
    ensures r.Ok? ==> pos < r.next < |ts|
    decreases |ts| - pos, 6
  {
    Tier(ts, pos, 0)
  }

  /** Tier k of `expression` (0), `comparison` (1), `term` (2) and `factor`
      (3): an operand of the next tier, then any number of operators of
      this tier, each with its right operand. */
  function Tier(ts: seq<Token>, pos: nat, k: nat): (r: Outcome<Node>)
    requires At(ts, pos) && k < 4
    ensures r.Ok? ==> pos < r.next < |ts|
    decreases |ts| - pos, 5 - k
  {
    var (left, p) :- if k < 3 then Tier(ts, pos, k + 1) else Primary(ts, pos);
    TierRest(ts, p, k, left)
  }

  /** The `while` loop of tier k: folds to the left. */
  function TierRest(ts: seq<Token>, pos: nat, k: nat, left: Node): (r: Outcome<Node>)
    requires At(ts, pos) && k < 4
    ensures r.Ok? ==> pos <= r.next < |ts|
    decreases |ts| - pos, 5
  {
    if IsTierOp(k, ts[pos]) then
      var m := Match(ts, pos, OPERATOR);
      var (op, p1) := (m.value, m.next);
      var (right, p2) :- if k < 3 then Tier(ts, p1, k + 1) else Primary(ts, p1);
      TierRest(ts, p2, k, Combine(k, op, left, right))
    else Ok(left, pos)
  }

  /** `primary`. The call check compares the identifier's own text with
      `(`, as the source does. */
  function Primary(ts: seq<Token>, pos: nat): (r: Outcome<Node>)
    requires At(ts, pos)
    ensures r.Ok? ==> pos < r.next < |ts|
    decreases |ts| - pos, 0
  {
    var t := ts[pos];
    if t.cat == IDENTIFIER then
      if t.text == "(" then
        var m := Match(ts, pos, IDENTIFIER);
        FunctionCall(ts, m.next, m.value)
      else
        var m := Match(ts, pos, IDENTIFIER);
        Ok(Identifier(m.value), m.next)
    else if t.cat == NUMBER then
      var m := Match(ts, pos, NUMBER);
      Ok(Number(m.value), m.next)
    else if t.cat == DELIMITER && t.text == "(" then
      var p1 := Match(ts, pos, DELIMITER).next;
      var (e, p2) :- Expression(ts, p1);
      var (_, p3) :- Match(ts, p2, DELIMITER);
      Ok(e, p3)
    else Err(UnexpectedInExpression(t.cat))
  }

  /** Puts already parsed items in front of a list outcome. */
  function Prepend<T>(xs: seq<T>, r: Outcome<seq<T>>): Outcome<seq<T>> {
    match r
    case Ok(ys, q) => Ok(xs + ys, q)
    case Err(e) => Err(e)
  }

  lemma PrependNothing<T>(xs: seq<T>, r: Outcome<seq<T>>)
    ensures Prepend([], r) == r
    ensures r.Ok? ==> Prepend(xs, Ok([], r.next)) == Ok(xs, r.next)
  {
    if r.Ok? {
      assert [] + r.value == r.value;
      assert xs + [] == xs;
    }
  }

  lemma PrependTwice<T>(xs: seq<T>, ys: seq<T>, r: Outcome<seq<T>>)
    ensures Prepend(xs, Prepend(ys, r)) == Prepend(xs + ys, r)
  {
    if r.Ok? {
      assert xs + (ys + r.value) == (xs + ys) + r.value;
    }
  }

  /** `program`: the statement list from the first token. */
  function Program(ts: seq<Token>): Outcome<seq<Node>>
    requires WellFormed(ts)
  {
    StatementList(ts, 0)
  }
}
