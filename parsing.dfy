/** The Parser class of parser.py: one method per production, each moving
    the shared lexer's cursor exactly as the source does, and each proved
    to return what the production's function in Grammar returns on the
    token list and the cursor position it started from. A raised
    SyntaxError is an Err outcome; after it the cursor is unspecified, as
    no caller goes on parsing. */
module Parsing {
  import opened Text
  import opened Lexing
  import opened Syntax
  import opened Grammar

  class Parser {
    const lexer: Lexer

    constructor (lexer: Lexer)
      ensures this.lexer == lexer
    {
      this.lexer := lexer;
    }

    /** `match`: on success the cursor is where the function says, and a
        failed match leaves it in place. */
    method Match(c: Category) returns (r: Outcome<string>)
      requires lexer.Valid()
      modifies lexer
      ensures lexer.Valid()
      ensures r == Grammar.Match(lexer.tokens, old(lexer.position), c)
      ensures r.Ok? ==> lexer.position == r.next
      ensures r.Err? ==> lexer.position == old(lexer.position)
    {
      var t := lexer.Peek();
      if t.cat == c {
        lexer.Advance();
        r := Ok(t.text, lexer.position);
      } else {
        r := Err(Expected(c, t.cat));
      }
    }

    /** `program` */
    method Program() returns (r: Outcome<seq<Node>>)
      requires lexer.Valid()
      modifies lexer
      ensures lexer.Valid()
      ensures r == Grammar.StatementList(lexer.tokens, old(lexer.position))
      ensures r.Ok? ==> lexer.position == r.next
    {
      r := StatementList();
    }

    /** `statement_list`: the `while not is_terminator()` loop. */
    method StatementList() returns (r: Outcome<seq<Node>>)
      requires lexer.Valid()
      modifies lexer
      ensures lexer.Valid()
      ensures r == Grammar.StatementList(lexer.tokens, old(lexer.position))
      ensures r.Ok? ==> lexer.position == r.next
      decreases |lexer.tokens| - lexer.position, 9
    {
      var statements: seq<Node> := [];
      PrependNothing(statements, Grammar.StatementList(lexer.tokens, lexer.position));
      while !IsTerminator(lexer.Peek())
        invariant lexer.Valid() && old(lexer.position) <= lexer.position
        invariant Grammar.StatementList(lexer.tokens, old(lexer.position))
          == Prepend(statements, Grammar.StatementList(lexer.tokens, lexer.position))
        decreases |lexer.tokens| - lexer.position
      {
        var s :- Statement();
        PrependTwice(statements, [s.0], Grammar.StatementList(lexer.tokens, lexer.position));
        statements := statements + [s.0];
      }
      PrependNothing(statements, Grammar.StatementList(lexer.tokens, lexer.position));
      r := Ok(statements, lexer.position);
    }

    /** `statement` */
    method Statement() returns (r: Outcome<Node>)
      requires lexer.Valid()
      modifies lexer
      ensures lexer.Valid()
      ensures r == Grammar.Statement(lexer.tokens, old(lexer.position))
      ensures r.Ok? ==> lexer.position == r.next
      decreases |lexer.tokens| - lexer.position, 8
    {
      var t := lexer.Peek();
      if t.cat == IDENTIFIER {
        r := AssignmentOrCall();
      } else if t.cat == QUESTION {
        r := IfStatement();
      } else if t.cat == KEYWORD && t.text == "repeat" {
        r := LoopStatement();
      } else if t.cat == KEYWORD && t.text == "func" {
        r := FunctionDef();
      } else if t.cat == KEYWORD && t.text == "log" {
        r := LogStatement();
      } else if t.cat == KEYWORD && t.text == "return" {
        r := ReturnStatement();
      } else {
        r := Err(UnexpectedToken(t.cat));
      }
    }

    /** `return_statement` */
    method ReturnStatement() returns (r: Outcome<Node>)
      requires lexer.Valid()
      modifies lexer
      ensures lexer.Valid()
      ensures r == Grammar.ReturnStatement(lexer.tokens, old(lexer.position))
      ensures r.Ok? ==> lexer.position == r.next
      decreases |lexer.tokens| - lexer.position, 7
    {
      var keyword :- Match(KEYWORD);
      var c := lexer.Peek().cat;
      if c != DELIMITER && c != KEYWORD {
        var e :- Expression();
        r := Ok(Return(Some(e.0)), lexer.position);
      } else {
        r := Ok(Return(None), lexer.position);
      }
    }

    /** `assignment_or_function_call` */
    method AssignmentOrCall() returns (r: Outcome<Node>)
      requires lexer.Valid()
      modifies lexer
      ensures lexer.Valid()
      ensures r == Grammar.AssignmentOrCall(lexer.tokens, old(lexer.position))
      ensures r.Ok? ==> lexer.position == r.next
      decreases |lexer.tokens| - lexer.position, 7
    {
      var identifier :- Match(IDENTIFIER);
      var t := lexer.Peek();
      if t.cat == ASSIGN {
        var assign := Match(ASSIGN);
        var e :- Expression();
        r := Ok(Assign(identifier.0, e.0), lexer.position);
      } else if t.cat == DELIMITER && t.text == "(" {
        r := FunctionCall(identifier.0);
      } else {
        r := Err(InvalidStatement);
      }
    }

    /** `if_statement` */
    method IfStatement() returns (r: Outcome<Node>)
      requires lexer.Valid()
      modifies lexer
      ensures lexer.Valid()
      ensures r == Grammar.IfStatement(lexer.tokens, old(lexer.position))
      ensures r.Ok? ==> lexer.position == r.next
      decreases |lexer.tokens| - lexer.position, 7
    {
      var question :- Match(QUESTION);
      var condition :- Expression();
      var doKeyword :- Match(KEYWORD);
      var thenBlock :- StatementList();
      var colon :- Match(DELIMITER);
      var elseBlock :- StatementList();
      var endKeyword :- Match(KEYWORD);
      r := Ok(If(condition.0, thenBlock.0, elseBlock.0), lexer.position);
    }

    /** `loop` */
    method LoopStatement() returns (r: Outcome<Node>)
      requires lexer.Valid()
      modifies lexer
      ensures lexer.Valid()
      ensures r == Grammar.LoopStatement(lexer.tokens, old(lexer.position))
      ensures r.Ok? ==> lexer.position == r.next
      decreases |lexer.tokens| - lexer.position, 7
    {
      var repeatKeyword :- Match(KEYWORD);
      var body :- StatementList();
      var untilKeyword :- Match(KEYWORD);
      var condition :- Expression();
      r := Ok(Loop(body.0, condition.0), lexer.position);
    }

    /** `log_statement` */
    method LogStatement() returns (r: Outcome<Node>)
      requires lexer.Valid()
      modifies lexer
      ensures lexer.Valid()
      ensures r == Grammar.LogStatement(lexer.tokens, old(lexer.position))
      ensures r.Ok? ==> lexer.position == r.next
      decreases |lexer.tokens| - lexer.position, 7
    {
      var logKeyword :- Match(KEYWORD);
      var open :- Match(DELIMITER);
      var content: Option<string>;
      var expr: Option<Node>;
      if lexer.Peek().cat == STRING {
        var s := Match(STRING);
        content, expr := Some(s.value), None;
      } else {
        var e :- Expression();
        content, expr := None, Some(e.0);
      }
      var close :- Match(DELIMITER);
      r := Ok(Log(content, expr), lexer.position);
    }

    /** `function_def` */
    method FunctionDef() returns (r: Outcome<Node>)
      requires lexer.Valid()
      modifies lexer
      ensures lexer.Valid()
      ensures r == Grammar.FunctionDef(lexer.tokens, old(lexer.position))
      ensures r.Ok? ==> lexer.position == r.next
      decreases |lexer.tokens| - lexer.position, 7
    {
      var funcKeyword :- Match(KEYWORD);
      var name :- Match(IDENTIFIER);
      var open :- Match(DELIMITER);
      var params :- ParamList();
      var close :- Match(DELIMITER);
      var doKeyword :- Match(KEYWORD);
      var body :- StatementList();
      var endKeyword :- Match(KEYWORD);
      r := Ok(FuncDef(name.0, params.0, body.0), lexer.position);
    }

    /** `param_list`: the first identifier, then the `while` loop over
        `, identifier`. */
    method ParamList() returns (r: Outcome<seq<string>>)
      requires lexer.Valid()
      modifies lexer
      ensures lexer.Valid()
      ensures r == Grammar.ParamList(lexer.tokens, old(lexer.position))
      ensures r.Ok? ==> lexer.position == r.next
    {
      var params: seq<string> := [];
      if lexer.Peek().cat == IDENTIFIER {
        var first := Match(IDENTIFIER);
        params := [first.value];
        while lexer.Peek().cat == DELIMITER && lexer.Peek().text == ","
          invariant lexer.Valid()
          invariant Grammar.ParamList(lexer.tokens, old(lexer.position))
            == MoreParams(lexer.tokens, lexer.position, params)
          decreases |lexer.tokens| - lexer.position
        {
          var comma := Match(DELIMITER);
          var x :- Match(IDENTIFIER);
          params := params + [x.0];
        }
      }
      r := Ok(params, lexer.position);
    }

    /** `function_call`, entered after the name. */
    method FunctionCall(name: string) returns (r: Outcome<Node>)
      requires lexer.Valid()
      modifies lexer
      ensures lexer.Valid()
      ensures r == Grammar.FunctionCall(lexer.tokens, old(lexer.position), name)
      ensures r.Ok? ==> lexer.position == r.next
      decreases |lexer.tokens| - lexer.position, 7
    {
      var open :- Match(DELIMITER);
      var args :- ArgList();
      var close :- Match(DELIMITER);
      r := Ok(FuncCall(name, args.0), lexer.position);
    }

    /** `arg_list`: the first expression, then the `while` loop over
        `, expression`. */
    method ArgList() returns (r: Outcome<seq<Node>>)
      requires lexer.Valid()
      modifies lexer
      ensures lexer.Valid()
      ensures r == Grammar.ArgList(lexer.tokens, old(lexer.position))
      ensures r.Ok? ==> lexer.position == r.next
      decreases |lexer.tokens| - lexer.position, 7
    {
      var args: seq<Node> := [];
      if lexer.Peek().cat != DELIMITER {
        var first :- Expression();
        args := [first.0];
        while lexer.Peek().cat == DELIMITER && lexer.Peek().text == ","
          invariant lexer.Valid() && old(lexer.position) < lexer.position
          invariant Grammar.ArgList(lexer.tokens, old(lexer.position))
            == MoreArgs(lexer.tokens, lexer.position, args)
          decreases |lexer.tokens| - lexer.position
        {
          var comma := Match(DELIMITER);
          var e :- Expression();
          args := args + [e.0];
        }
      }
      r := Ok(args, lexer.position);
    }

    /** `expression`: comparisons joined by `&&` and `||`. */
    method Expression() returns (r: Outcome<Node>)
      requires lexer.Valid()
      modifies lexer
      ensures lexer.Valid()
      ensures r == Tier(lexer.tokens, old(lexer.position), 0)
      ensures r.Ok? ==> lexer.position == r.next
      decreases |lexer.tokens| - lexer.position, 5
    {
      var first :- Comparison();
      var left := first.0;
      while IsTierOp(0, lexer.Peek())
        invariant lexer.Valid() && old(lexer.position) < lexer.position
        invariant Tier(lexer.tokens, old(lexer.position), 0) == TierRest(lexer.tokens, lexer.position, 0, left)
        decreases |lexer.tokens| - lexer.position
      {
        var op := Match(OPERATOR);
        var right :- Comparison();
        left := LogOp(op.value, left, right.0);
      }
      r := Ok(left, lexer.position);
    }

    /** `comparison`: terms joined by the six comparison operators. */
    method Comparison() returns (r: Outcome<Node>)
      requires lexer.Valid()
      modifies lexer
      ensures lexer.Valid()
      ensures r == Tier(lexer.tokens, old(lexer.position), 1)
      ensures r.Ok? ==> lexer.position == r.next
      decreases |lexer.tokens| - lexer.position, 4
    {
      var first :- Term();
      var left := first.0;
      while IsTierOp(1, lexer.Peek())
        invariant lexer.Valid() && old(lexer.position) < lexer.position
        invariant Tier(lexer.tokens, old(lexer.position), 1) == TierRest(lexer.tokens, lexer.position, 1, left)
        decreases |lexer.tokens| - lexer.position
      {
        var op := Match(OPERATOR);
        var right :- Term();
        left := Compare(op.value, left, right.0);
      }
      r := Ok(left, lexer.position);
    }

    /** `term`: factors joined by `+` and `-`. */
    method Term() returns (r: Outcome<Node>)
      requires lexer.Valid()
      modifies lexer
      ensures lexer.Valid()
      ensures r == Tier(lexer.tokens, old(lexer.position), 2)
      ensures r.Ok? ==> lexer.position == r.next
      decreases |lexer.tokens| - lexer.position, 3
    {
      var first :- Factor();
      var left := first.0;
      while IsTierOp(2, lexer.Peek())
        invariant lexer.Valid() && old(lexer.position) < lexer.position
        invariant Tier(lexer.tokens, old(lexer.position), 2) == TierRest(lexer.tokens, lexer.position, 2, left)
        decreases |lexer.tokens| - lexer.position
      {
        var op := Match(OPERATOR);
        var right :- Factor();
        left := BinOp(op.value, left, right.0);
      }
      r := Ok(left, lexer.position);
    }

    /** `factor`: primaries joined by `*` and `/`. */
    method Factor() returns (r: Outcome<Node>)
      requires lexer.Valid()
      modifies lexer
      ensures lexer.Valid()
      ensures r == Tier(lexer.tokens, old(lexer.position), 3)
      ensures r.Ok? ==> lexer.position == r.next
      decreases |lexer.tokens| - lexer.position, 2
    {
      var first :- Primary();
      var left := first.0;
      while IsTierOp(3, lexer.Peek())
        invariant lexer.Valid() && old(lexer.position) < lexer.position
        invariant Tier(lexer.tokens, old(lexer.position), 3) == TierRest(lexer.tokens, lexer.position, 3, left)
        decreases |lexer.tokens| - lexer.position
      {
        var op := Match(OPERATOR);
        var right :- Primary();
        left := BinOp(op.value, left, right.0);
      }
      r := Ok(left, lexer.position);
    }

    /** `primary` */
    method Primary() returns (r: Outcome<Node>)
      requires lexer.Valid()
      modifies lexer
      ensures lexer.Valid()
      ensures r == Grammar.Primary(lexer.tokens, old(lexer.position))
      ensures r.Ok? ==> lexer.position == r.next
      decreases |lexer.tokens| - lexer.position, 1
    {
      var t := lexer.Peek();
      if t.cat == IDENTIFIER {
        if lexer.Peek().text == "(" {
          var name := Match(IDENTIFIER);
          r := FunctionCall(name.value);
        } else {
          var name := Match(IDENTIFIER);
          r := Ok(Identifier(name.value), lexer.position);
        }
      } else if t.cat == NUMBER {
        var number := Match(NUMBER);
        r := Ok(Number(number.value), lexer.position);
      } else if t.cat == DELIMITER && t.text == "(" {
        var open := Match(DELIMITER);
        var e :- Expression();
        var close :- Match(DELIMITER);
        r := Ok(e.0, lexer.position);
      } else {
        r := Err(UnexpectedInExpression(t.cat));
      }
    }
  }
}
