# A compiler front end for a small scripting language, in Dafny

The system turns the source text of a small procedural scripting language
into three-address code (TAC) in three stages:

- **Tokenizer** (`lexer.py`). At each position an ordered list of ten
  rules is tried with first-match priority: KEYWORD, ASSIGN, IDENTIFIER,
  NUMBER, OPERATOR, DELIMITER, QUESTION, STRING, WHITESPACE, UNKNOWN.
  Whitespace lexemes are dropped and an EOF sentinel is appended.
  - A `Lexer` object keeps the token list and a `position` cursor.
  - `peek` reads the token at the cursor, and `advance` moves the cursor
    forward but stops at EOF.
- **Recursive-descent parser** (`parser.py`). It builds a tree of tagged
  tuples, which are modelled by the datatype `Syntax.Node`.
  - Expressions use four left-associative precedence tiers:
    `&& ||` < comparisons < `+ -` < `* /`.
  - Every production moves the shared lexer cursor through `match`.
- **TAC lowering** (`tac.py`). A `TACGenerator` holds a temporary counter,
  a label counter and a list of instruction lines that only grows.
  - `process_node` walks the tree, emits lines and returns the value
    string of an expression.
  - `generate_tac` lowers a statement list and joins the lines with
    newlines.

Each stage is modelled twice:

- **A specification function on values.**
  - `Lexing.Tokens` gives the token list.
  - `Grammar.StatementList` and the other functions of `Grammar` run on a
    token list and a position, and give an `Outcome`: either the tree and
    the next position, or the error.
  - `Lowering.LowerNode` and its companions give the instructions as data
    (`Instr`) together with the final counters. `Render` turns an
    instruction into the line the source formats.
- **The imperative object the source uses.** Each is proved equal to the
  specification function.
  - `Lexing.Lexer` is a class with a `position` field.
  - `Parsing.Parser` is a class whose methods advance the shared `Lexer`.
  - `Lowering.TacGenerator` is a class with `tempCount`, `labelCount` and
    `code` fields. The `Process…` methods and `GenerateTac` drive it.

The properties are proved about the specification functions:

- `Lexing`: lexer facts, such as no character lost, keyword priority, and
  what each kind of lexeme looks like.
- `GrammarLaws`: parser facts, such as terminators, statement dispatch,
  precedence and associativity, and the quirks of `match` and `primary`.
- `LoweringLaws`: naming facts about lowering.
  - Every temporary and every label is taken exactly once.
  - There is one temporary per `binop`/`compare` and two labels per
    `if`/`loop`.
  - Every jump has its label placed.
  - The end label of a loop is never jumped to.
- `LoweringExamples`: exact lowerings of small programs.

Two behaviours of the code that shape the model:

- **Rule order.** ASSIGN is tried before IDENTIFIER (`lexer.py:6-7`). The
  two rules never match at the same position, so the order changes no
  token.
- **Temporary numbering.** A `binop` takes its temporary before lowering
  its operands (`tac.py:47-49`). So `x := 1 + 2 * 3` gives `t2 := 2 * 3`,
  `t1 := 1 + t2`, `x := t1`; see `LoweringExamples.ProductFirst`.

## Model

| member | source | states |
|---|---|---|
| Text.Decimal | tac.py:13 | the decimal rendering of a counter value is a non-empty digit string, one digit long exactly when the value is below 10 |
| Text.DecimalRoundTrip | tac.py:13 | reading back the rendered digits of k gives k |
| Text.DecimalInjective | tac.py:13 | two different counter values never render to the same digits |
| Text.FirstNewline | tac.py:26 | the position found is the first newline of the text; when there is none, the text has no newline |
| Text.SplitJoin | tac.py:26 | the newline join of non-empty, newline-free lines splits back into exactly those lines |
| Lexing.RunIsMaximal | lexer.py:9 | a character run covers only characters of its class and stops at the end of the text or at a character outside the class |
| Lexing.QuoteIsFirst | lexer.py:12 | the closing quote found is the first `"` after the opening one, and when none is found no `"` follows |
| Lexing.FirstMatch | lexer.py:18 | the match at a position is a non-empty slice of the input starting there |
| Lexing.FirstMatchShaped | lexer.py:4-18 | when every rule yields lexemes of its own category's shape, so does the first-match combination, and it never yields EOF |
| Lexing.TokenSpecsShaped | lexer.py:4-15 | each of the ten rules yields only lexemes of its category's shape, e.g. a NUMBER is digits with an optional `.` and more digits |
| Lexing.NumberRuleBoundaries | lexer.py:8 | a NUMBER match starts and ends on a word boundary |
| Lexing.NumberRuleParts | lexer.py:8 | a NUMBER match is the maximal digit run at its start, optionally followed by `.` and more digits |
| Lexing.NumberMatchShaped | lexer.py:8 | the text of a NUMBER match has the NUMBER shape: digits, then optionally `.` and more digits |
| Lexing.AlwaysMatches | lexer.py:13-14 | some rule matches at every position of every text |
| Lexing.TokenSpecsCovering | lexer.py:13-14 | the rule list covers every position of every text |
| Lexing.LexemesCover | lexer.py:27-31 | for a covering rule list, the lexemes from a position concatenate to exactly the rest of the text |
| Lexing.SourceCovered | lexer.py:27-31 | no character is lost: all lexemes, whitespace included, concatenate to the source text |
| Lexing.TokensWellFormed | lexer.py:30-32 | the token list ends with its only EOF token and holds no WHITESPACE token |
| Lexing.TokensShaped | lexer.py:4-15 | every token before EOF has the shape of its category; for example a STRING keeps its quotes and has no inner `"` |
| Lexing.WhitespaceOnly | lexer.py:30-32 | whitespace-only input gives exactly the EOF token |
| Lexing.WholeWord | lexer.py:5 | a word is matched at a position exactly when it is the whole word found there |
| Lexing.AlternationIsWord | lexer.py:5 | the keyword alternation matches exactly when the whole word at the position is in the list |
| Lexing.KeywordRuleIsWord | lexer.py:5 | the KEYWORD rule matches exactly at a word boundary whose whole word is a keyword, and it takes the whole word |
| Lexing.KeywordOrIdentifier | lexer.py:5-7 | at a word boundary, a word becomes one KEYWORD token when the whole word is a keyword, and one IDENTIFIER token otherwise, e.g. `variable` or `do_x` |
| Lexing.AssignIsOneToken | lexer.py:6-10 | `:=` is one ASSIGN token of length 2, never DELIMITER `:` followed by OPERATOR `=` |
| Lexing.OperatorIsMaximalRun | lexer.py:9 | an OPERATOR token is the maximal run of operator characters, so `>=` and `&&` are single tokens |
| Lexing.StringUpToNextQuote | lexer.py:12 | a STRING token runs from its `"` to the next `"` and includes both |
| Lexing.UnmatchedQuote | lexer.py:12-14 | a `"` with no closing quote is a one-character UNKNOWN token |
| Lexing.Lexer.constructor | lexer.py:21-23 | the cursor starts at 0 on the token list of the code, and the lexer is valid |
| Lexing.Lexer.Tokenize | lexer.py:25-33 | the loop appends the non-whitespace lexemes in order, then EOF |
| Lexing.Lexer.Advance | lexer.py:35-38 | the cursor moves by one unless it is at the last token (EOF), and it stays within the list |
| Lexing.Lexer.Peek | lexer.py:40-42 | returns the token at the cursor, which is in the list and is EOF exactly at the last position |
| Grammar.Match | parser.py:7-14 | a successful match on a non-EOF category moves exactly one token; the result stays inside the list |
| Grammar.StatementList | parser.py:20-26 | a statement list ends at a position not before where it started, inside the list |
| Grammar.Statement | parser.py:35-51 | a statement consumes at least one token, which is what makes the statement-list loop terminate |
| Grammar.ReturnStatement | parser.py:53-61 | a return statement consumes at least one token |
| Grammar.AssignmentOrCall | parser.py:63-73 | an assignment or call consumes at least one token |
| Grammar.IfStatement | parser.py:74-90 | an if statement consumes at least one token |
| Grammar.LoopStatement | parser.py:93-99 | a loop consumes at least one token |
| Grammar.LogStatement | parser.py:101-115 | a log statement consumes at least one token |
| Grammar.FunctionDef | parser.py:117-127 | a function definition consumes at least one token |
| Grammar.ParamList | parser.py:129-137 | a parameter list never moves backwards and stays inside the list |
| Grammar.FunctionCall | parser.py:139-144 | a call consumes at least its `(` |
| Grammar.ArgList | parser.py:146-154 | an argument list never moves backwards and stays inside the list |
| Grammar.Expression | parser.py:155-162 | an expression consumes at least one token |
| Grammar.Tier | parser.py:155-189 | each precedence tier consumes at least one token |
| Grammar.Primary | parser.py:191-207 | a primary consumes at least one token |
| Parsing.Parser.constructor | parser.py:4-5 | the parser holds the lexer it is given |
| Parsing.Parser.Match | parser.py:7-14 | the result is the grammar's match at the old cursor; on success the cursor is after the token, on failure it has not moved |
| Parsing.Parser.Program | parser.py:16-18 | the program is the statement list from the cursor |
| Parsing.Parser.StatementList | parser.py:20-33 | the loop result equals the grammar's statement list at the old cursor, and the cursor ends at its end |
| Parsing.Parser.Statement | parser.py:35-51 | the dispatch equals the grammar's statement at the old cursor |
| Parsing.Parser.ReturnStatement | parser.py:53-61 | equals the grammar's return statement at the old cursor |
| Parsing.Parser.AssignmentOrCall | parser.py:63-73 | equals the grammar's assignment-or-call at the old cursor |
| Parsing.Parser.IfStatement | parser.py:74-90 | equals the grammar's if statement at the old cursor |
| Parsing.Parser.LoopStatement | parser.py:93-99 | equals the grammar's loop at the old cursor |
| Parsing.Parser.LogStatement | parser.py:101-115 | equals the grammar's log statement at the old cursor |
| Parsing.Parser.FunctionDef | parser.py:117-127 | equals the grammar's function definition at the old cursor |
| Parsing.Parser.ParamList | parser.py:129-137 | the loop's parameters equal the grammar's parameter list at the old cursor |
| Parsing.Parser.FunctionCall | parser.py:139-144 | equals the grammar's call at the old cursor |
| Parsing.Parser.ArgList | parser.py:146-154 | the loop's arguments equal the grammar's argument list at the old cursor |
| Parsing.Parser.Expression | parser.py:155-162 | the loop over `&&`/`\|\|` equals the grammar's lowest tier at the old cursor |
| Parsing.Parser.Comparison | parser.py:164-171 | the loop over comparison operators equals the grammar's second tier |
| Parsing.Parser.Term | parser.py:173-180 | the loop over `+`/`-` equals the grammar's third tier |
| Parsing.Parser.Factor | parser.py:182-189 | the loop over `*`/`/` equals the grammar's fourth tier |
| Parsing.Parser.Primary | parser.py:191-207 | equals the grammar's primary at the old cursor |
| GrammarLaws.StatementListStops | parser.py:20-33 | a statement list at a terminator is empty and consumes nothing; a successful one always stops at a terminator (EOF, `end`/`until`, or `:`) without consuming it |
| GrammarLaws.StatementForms | parser.py:35-51 | a leading token outside the six statement forms is an "unexpected token" error; each leading token yields its own kind of statement |
| GrammarLaws.IdentifierStatement | parser.py:63-73 | after a leading identifier, `:=` gives an assignment of the expression that follows, `(` gives a call, and any other token gives "Invalid statement" |
| GrammarLaws.PrimaryIdentifier | parser.py:194-198 | an identifier in expression position becomes an identifier node, because the call check compares the identifier's own text with `(` |
| GrammarLaws.IdentifierNeverCalls | parser.py:194-198 | for any tokenized source, an IDENTIFIER in expression position is never a call |
| GrammarLaws.LoneOperand | parser.py:155-200 | a lone number or identifier not followed by an operator parses at every tier to its leaf |
| GrammarLaws.ProductBindsTighter | parser.py:173-189 | `1 + 2 * 3` parses as `1 + (2 * 3)` |
| GrammarLaws.DifferenceGroupsLeft | parser.py:173-180 | `a - b - c` parses as `(a - b) - c` |
| GrammarLaws.ComparisonBindsTighter | parser.py:155-171 | `a < b && c` parses as `(a < b) && c` |
| GrammarLaws.PrimaryLeaf | parser.py:191-200 | without parentheses a primary is one identifier or number token |
| GrammarLaws.TierRestStep | parser.py:158-161 | one turn of a tier's loop: the operator, the right operand from the next tier, then the loop again with the combined node |
| GrammarLaws.CombineLayered | parser.py:161-188 | the node a tier builds from operands of the right tiers belongs to that tier and is spelled left operand, operator, right operand |
| GrammarLaws.OperandLayered | parser.py:157-187 | the operand a tier reads from the next tier, or as a primary below `* /`, is of that next tier or tighter and spells what it consumed |
| GrammarLaws.TierLayered | parser.py:155-189 | for every token list without `(`, every tier parses a layered tree, in which each operator node holds an operator of its own tier, that spells exactly the tokens it consumed: `* /` bind tighter than `+ -`, which bind tighter than comparisons, which bind tighter than `&& \|\|`, and each tier groups to the left |
| GrammarLaws.TierRestLayered | parser.py:155-189 | a tier's loop keeps its accumulated left operand layered at that tier and spelling the tokens consumed so far |
| GrammarLaws.ExpressionLayered | parser.py:155-162 | an expression without parentheses is layered from the loosest tier, each operator at its own tier, and spells the tokens it consumed |
| GrammarLaws.SpellingTiers | parser.py:155-189 | a layered tree spells at least one token, an operand exactly one; no token is of a looser tier than the root, and the root operator follows the left operand's tokens |
| GrammarLaws.SameRoot | parser.py:155-189 | two layered operator trees spelled alike have the same root operator at the same place, so their operands are spelled alike |
| GrammarLaws.LayeredUnique | parser.py:155-189 | two layered trees with the same spelling are equal: the tiers leave one grouping per token list |
| GrammarLaws.ExpressionUnique | parser.py:155-162 | without parentheses, the tree an expression parses to is the only tier-0 layered tree that spells the consumed tokens |
| GrammarLaws.ColonlessCondition | parser.py:164-171 | in `? x > 0 do …` the condition parses to `x > 0` and stops at `do` |
| GrammarLaws.IfNeedsColon | parser.py:74-90 | `? x > 0 do y := 1 end` fails with "expected DELIMITER, got KEYWORD" |
| GrammarLaws.AnyKeywordActsAsDo | parser.py:74-90 | `match` checks categories only: `? x end y := 1 : end` parses, with `end` in the `do` slot |
| GrammarLaws.EndAsDoThenBlock | parser.py:20-33 | the then-block of that statement stops at the `:` |
| GrammarLaws.ReturnAtEnd | parser.py:53-61 | `return` directly before EOF fails in `primary`, since EOF is neither DELIMITER nor KEYWORD |
| GrammarLaws.ProgramStopsAtTerminator | parser.py:16-26 | a program stops silently at a stray `end` and leaves the rest unparsed |
| Lowering.RenderedConcat | tac.py:20-22 | rendering distributes over concatenation, so appending keeps earlier lines unchanged |
| Lowering.RenderedAssign | tac.py:39-43 | an assignment emits the value's lines, then `target := value` |
| Lowering.RenderedBinary | tac.py:45-59 | a binop or compare emits the left operand's lines, the right operand's lines, then `t := left op right` with the temporary taken first |
| Lowering.RenderedIf | tac.py:61-74 | an if emits the condition, `if not c goto Le`, the then-block, `goto Lend`, `Le:`, the else-block, `Lend:`, with both labels taken after the condition |
| Lowering.RenderedLoop | tac.py:76-87 | a loop emits `Ls:`, the body, the condition, `if c goto Ls`, `Le:`, with both labels taken first |
| Lowering.RenderedLog | tac.py:89-95 | a non-empty string is logged as `log "<text>"`; otherwise the expression is lowered and `log value` emitted |
| Lowering.RenderedFuncDef | tac.py:97-102 | a function emits `func name(p1, p2):`, its body, `end name` |
| Lowering.TacGenerator.constructor | tac.py:5-8 | a fresh generator has both counters at 0 and no code |
| Lowering.TacGenerator.NewTemp | tac.py:10-13 | the temporary counter goes up by one and the name is `t` followed by its new value; nothing else changes |
| Lowering.TacGenerator.NewLabel | tac.py:15-18 | the label counter goes up by one and the name is `L` followed by its new value; nothing else changes |
| Lowering.TacGenerator.Emit | tac.py:20-22 | exactly the one line is appended, and the counters do not change |
| Lowering.TacGenerator.GetCode | tac.py:24-26 | the text is the newline join of the lines, and splitting it at newlines gives back the lines |
| Lowering.ProcessNode | tac.py:37-105 | the lines appended, the value returned and the final counters are those of the node's lowering from the old counters |
| Lowering.ProcessAssign | tac.py:39-43 | as ProcessNode, for an assignment |
| Lowering.ProcessBinary | tac.py:45-59 | as ProcessNode, for a binop or compare |
| Lowering.ProcessIf | tac.py:61-74 | as ProcessNode, for an if |
| Lowering.ProcessLoop | tac.py:76-87 | as ProcessNode, for a loop |
| Lowering.ProcessLog | tac.py:89-95 | as ProcessNode, for a log statement |
| Lowering.ProcessFuncDef | tac.py:97-102 | as ProcessNode, for a function definition |
| Lowering.ProcessExpression | tac.py:107-111 | as ProcessNode for a present expression; an absent one appends nothing and gives None |
| Lowering.ProcessBlock | tac.py:68-73 | the `for stmt in block` loop appends exactly the block's lowering |
| Lowering.GenerateTac | tac.py:28-35 | the text is the newline join of the rendered lowering of the tree from counters 0 |
| LoweringLaws.NeverTwice | tac.py:10-18 | when each number in a range is taken exactly once, no later instruction takes a number again |
| LoweringLaws.JumpsPlaced | tac.py:61-87 | when labels are taken exactly once and jumps stay in range, every jump has its label placed |
| LoweringLaws.NodeNumbering | tac.py:37-105 | a node takes exactly the temporaries t+1..t+binops and labels l+1..l+2·branches, each once, and its jumps stay in that range |
| LoweringLaws.ExpressionNumbering | tac.py:107-111 | the same for an optional expression |
| LoweringLaws.BlockNumbering | tac.py:68-73 | the same for a statement block |
| LoweringLaws.AssignNumbering | tac.py:39-43 | the same for an assignment |
| LoweringLaws.BinaryNumbering | tac.py:45-59 | the same for a binop or compare, which takes one temporary |
| LoweringLaws.IfNumbering | tac.py:61-74 | the same for an if, which takes two labels |
| LoweringLaws.LoopNumbering | tac.py:76-87 | the same for a loop, which takes two labels |
| LoweringLaws.LogNumbering | tac.py:89-95 | the same for a log statement |
| LoweringLaws.FuncDefNumbering | tac.py:97-102 | the same for a function definition |
| LoweringLaws.FreshNames | tac.py:28-35 | a whole run uses exactly temporaries 1..binops and labels 1..2·branches, each once; no two generated temporaries are written twice and no label is placed twice; every jump has its label placed |
| LoweringLaws.NamesDistinct | tac.py:10-18 | different counter values give different temporary names and different label names |
| LoweringLaws.LoopEndUnused | tac.py:76-87 | a loop ends by placing its end label, which appears once and is the target of no jump |
| LoweringLaws.TempBeforeOperands | tac.py:45-59 | a binop's value is `t{t+1}`, its last instruction writes it, and every temporary written before it is higher |
| LoweringExamples.ProductFirst | tac.py:39-59 | `x := 1 + 2 * 3` lowers to `t2 := 2 * 3`, `t1 := 1 + t2`, `x := t1` |
| LoweringExamples.LogicalIsNone | tac.py:37-105 | `x := a && b` lowers to `x := None`, because a logical operator matches no case |
| LoweringExamples.RepeatLayout | tac.py:76-87 | the exact lines of `repeat y := y + 1 until y > 10` |
| LoweringExamples.IfElseLayout | tac.py:61-74 | the exact lines of `? x > 0 do y := 1 : y := 2 end` |
| LoweringExamples.EmptyFunction | tac.py:97-102 | a function with no parameters opens with `func f():`, and a `return x` in its body emits nothing |
| LoweringExamples.FunctionParameters | tac.py:99 | parameters are listed with `, ` between them |
| LoweringExamples.StringLogQuoted | tac.py:91-92 | a logged string token keeps its own quotes inside the added pair |

## Left out

- `scanner.py` is not part of this model. Its tokenizer repeats the one in `lexer.py` without the EOF sentinel, and the rest of that file reads and prints files.
- `parser.py:209-257`: token and tree printing, and the module-level code that reads a file and runs the pipeline, are console and file I/O.
- `tac.py:113-129`: the `__main__` driver reads a file and prints; it is left out as I/O.
- The regular-expression engine is not modelled. Each rule is written out by hand for ASCII text, with the `\b` word boundaries made explicit.
  - Non-ASCII input and Unicode character classes are not modelled.
  - `\s` is taken as Python's ASCII whitespace, which includes the separator characters 0x1c-0x1f.
- `Lexing.Lexer.Tokenize` takes the rule list as a parameter; the constructor passes the ten rules. This keeps the scanning loop independent of the particular rules.
- The EOF sentinel's value is `None` in the source and the empty string here. The parser never reads that value.
- `SyntaxError` messages are not modelled as strings. A `Grammar.ParseError` value carries the expected and actual categories, and the first error aborts the parse.
- `Lowering.ProcessExpression`: the branch that returns a non-tuple expression unchanged (`tac.py:111`) is not modelled separately. Leaves in the tree are always `identifier`/`number` nodes, which `process_node` already returns by their text. The optional expressions of `log` and `return` are modelled by `Option<Node>`, and an absent one gives None.
- The `if/elif` chain of `process_node` is split into one method per case (`ProcessAssign`, `ProcessBinary`, …). `ProcessNode` dispatches to them in the same order, and nodes that match no case (`logop`, `return`, `func_call`) emit nothing and give None.
- LoweringLaws.FreshNames: the names are fresh among generated temporaries and labels only. A source variable may itself be called `t1` or `L1` (`tac.py:43` against `tac.py:13`), and nothing keeps it apart from a temporary, just as in the source.
- GrammarLaws.TierLayered: precedence is stated for token lists without `(`. A parenthesised subexpression is a primary whose tree may be of any tier, so the layering does not hold across parentheses. The other use of `(`, the call branch of `primary` (`parser.py:196`), never fires.
- The meaning of the emitted TAC is not modelled: no execution and no reachability beyond the layout properties above.
