/** The tokenizer of lexer.py and its token cursor.

    At each position the rules are tried in their fixed priority order
    KEYWORD, ASSIGN, IDENTIFIER, NUMBER, OPERATOR, DELIMITER, QUESTION,
    STRING, WHITESPACE, UNKNOWN; the first rule that matches decides the
    category and the length of the lexeme. Each rule is written out by hand
    for ASCII text, with the word-boundary checks of the patterns made
    explicit by Boundary. */
module Lexing {
  import opened Text

  datatype Category =
    | KEYWORD | ASSIGN | IDENTIFIER | NUMBER | OPERATOR | DELIMITER
    | QUESTION | STRING | WHITESPACE | UNKNOWN | EOF

  /** A token: its category and its literal text. The end-of-file sentinel
      carries no text, which is written as the empty string here. */
  datatype Token = Token(cat: Category, text: string)

  const EofToken: Token := Token(EOF, "")

  const Keywords: seq<string> :=
    ["var", "return", "const", "repeat", "until", "do", "end", "func", "log"]

  // ASCII character classes of the patterns.

  predicate IsLetter(c: char) {
    'a' <= c <= 'z' || 'A' <= c <= 'Z'
  }

  predicate IsDigit(c: char) {
    '0' <= c <= '9'
  }

  /** `\w`: what counts as part of a word for `\b`. */
  predicate IsWordChar(c: char) {
    IsLetter(c) || IsDigit(c) || c == '_'
  }

  predicate IsIdentifierStart(c: char) {
    IsLetter(c) || c == '_'
  }

  /** `\s` on ASCII text: tab to carriage return, the four separators
      0x1c to 0x1f, and the space. */
  predicate IsSpace(c: char) {
    9 <= c as int <= 13 || 28 <= c as int <= 32
  }

  predicate IsOperatorChar(c: char) {
    c in "+-*/=<>!&|"
  }

  predicate IsDelimiterChar(c: char) {
    c in ";,()[]{}:"
  }

  /** `\b` at position i of s: a word character on exactly one side. */
  predicate Boundary(s: string, i: nat)
    requires i <= |s|
  {
    (i > 0 && IsWordChar(s[i - 1])) != (i < |s| && IsWordChar(s[i]))
  }

  predicate StartsAt(s: string, p: nat, w: string) {
    p + |w| <= |s| && s[p..p + |w|] == w
  }

  /** Length of the longest run of characters satisfying f from p on. */
  function RunLength(s: string, p: nat, f: char -> bool): (n: nat)
    requires p <= |s|
    ensures p + n <= |s|
    decreases |s| - p
  {
    if p < |s| && f(s[p]) then 1 + RunLength(s, p + 1, f) else 0
  }

  /** The run is made of f-characters and cannot be extended. */
  lemma {:induction false} RunIsMaximal(s: string, p: nat, f: char -> bool)
    requires p <= |s|
    ensures forall i :: p <= i < p + RunLength(s, p, f) ==> f(s[i])
    ensures p + RunLength(s, p, f) == |s| || !f(s[p + RunLength(s, p, f)])
    decreases |s| - p
  {
    if p < |s| && f(s[p]) {
      RunIsMaximal(s, p + 1, f);
    }
  }

  /** A run of f-characters that cannot be extended is the longest run. */
  lemma {:induction false} RunLengthIs(s: string, p: nat, f: char -> bool, m: nat)
    requires p + m <= |s|
    requires forall k :: p <= k < p + m ==> f(s[k])
    requires p + m == |s| || !f(s[p + m])
    ensures RunLength(s, p, f) == m
    decreases m
  {
    if m > 0 {
      RunLengthIs(s, p + 1, f, m - 1);
    }
  }

  /** The word at p: the longest run of word characters starting there. */
  function WordAt(s: string, p: nat): (w: string)
    requires p <= |s|
  {
    s[p..p + RunLength(s, p, IsWordChar)]
  }

  predicate IsKeyword(w: string) {
    w in Keywords
  }

  // The rules of token_specs, one function each: the length of the text the
  // pattern matches at p, or None.

  /** The alternatives of the KEYWORD pattern tried in order, each followed
      by `\b`: the first alternative that matches at p. */
  function Alternation(s: string, p: nat, ws: seq<string>): Option<string>
  {
    if ws == [] then None
    else if StartsAt(s, p, ws[0]) && Boundary(s, p + |ws[0]|) then Some(ws[0])
    else Alternation(s, p, ws[1..])
  }

  /** `\b(var|return|const|repeat|until|do|end|func|log)\b`. KeywordRuleIsWord
      shows that it matches exactly a whole word that is a keyword. */
  function KeywordRule(s: string, p: nat): Option<nat>
  {
    if p < |s| && Boundary(s, p) then
      match Alternation(s, p, Keywords)
      case Some(w) => Some(|w|)
      case None => None
    else None
  }

  /** `:=` */
  function AssignRule(s: string, p: nat): Option<nat>
  {
    if p + 1 < |s| && s[p] == ':' && s[p + 1] == '=' then Some(2) else None
  }

  /** `\b[a-zA-Z_][a-zA-Z0-9_]*\b`. Only the maximal run can be followed by
      a boundary, so backtracking to a shorter run never succeeds. */
  function IdentifierRule(s: string, p: nat): Option<nat>
  {
    if p < |s| && Boundary(s, p) && IsIdentifierStart(s[p]) then
      var n := RunLength(s, p, IsWordChar);
      if Boundary(s, p + n) then Some(n) else None
    else None
  }

  /** The backtracking of `\d*` in the fraction of NUMBER: the longest
      fraction of at most m digits after `start` that ends on a boundary. */
  function FractionFrom(s: string, start: nat, m: nat): (r: Option<nat>)
    requires start + m <= |s|
    ensures r.Some? ==> r.value <= m && Boundary(s, start + r.value)
    decreases m
  {
    if Boundary(s, start + m) then Some(m)
    else if m == 0 then None
    else FractionFrom(s, start, m - 1)
  }

  /** `\b\d+(\.\d*)?\b`. A shorter digit run than the maximal one is
      followed by a digit, so neither the fraction nor the final boundary
      can match after it: only the maximal run d is considered. */
  function NumberRule(s: string, p: nat): Option<nat>
  {
    if p < |s| && Boundary(s, p) && IsDigit(s[p]) then
      var d := RunLength(s, p, IsDigit);
      var e := p + d;
      var fraction :=
        if e < |s| && s[e] == '.' then FractionFrom(s, e + 1, RunLength(s, e + 1, IsDigit)) else None;
      if fraction.Some? then Some(d + 1 + fraction.value)
      else if Boundary(s, e) then Some(d)
      else None
    else None
  }

  // `[+\-*/=<>!&|]+`
  function OperatorRule(s: string, p: nat): Option<nat>
  {
    if p < |s| && IsOperatorChar(s[p]) then Some(RunLength(s, p, IsOperatorChar)) else None
  }

  /** `[;,\(\)\[\]\{\}:]` */
  function DelimiterRule(s: string, p: nat): Option<nat>
  {
    if p < |s| && IsDelimiterChar(s[p]) then Some(1) else None
  }

  /** `\?` */
  function QuestionRule(s: string, p: nat): Option<nat>
  {
    if p < |s| && s[p] == '?' then Some(1) else None
  }

  /** Index of the first `"` at or after q, if any. */
  function QuoteFrom(s: string, q: nat): (r: Option<nat>)
    requires q <= |s|
    ensures r.Some? ==> q <= r.value < |s| && s[r.value] == '"'
    decreases |s| - q
  {
    if q == |s| then None
    else if s[q] == '"' then Some(q)
    else QuoteFrom(s, q + 1)
  }

  /** QuoteFrom finds the first double quote: none comes before it. */
  lemma {:induction false} QuoteIsFirst(s: string, q: nat)
    requires q <= |s|
    ensures QuoteFrom(s, q).Some? ==> forall i :: q <= i < QuoteFrom(s, q).value ==> s[i] != '"'
    ensures QuoteFrom(s, q).None? ==> forall i :: q <= i < |s| ==> s[i] != '"'
    decreases |s| - q
  {
    if q < |s| && s[q] != '"' {
      QuoteIsFirst(s, q + 1);
    }
  }

  /** `"[^"]*"`: up to and including the next double quote. */
  function StringRule(s: string, p: nat): Option<nat>
  {
    if p < |s| && s[p] == '"' then
      match QuoteFrom(s, p + 1)
      case Some(j) => Some(j + 1 - p)
      case None => None
    else None
  }

  /** `\s+` */
  function WhitespaceRule(s: string, p: nat): Option<nat>
  {
    if p < |s| && IsSpace(s[p]) then Some(RunLength(s, p, IsSpace)) else None
  }

  /** `.`: any character but a newline. */
  function UnknownRule(s: string, p: nat): Option<nat>
  {
    if p < |s| && s[p] != '\n' then Some(1) else None
  }

  /** One entry of token_specs: a category and its pattern. */
  datatype Spec = Spec(cat: Category, rule: (string, nat) -> Option<nat>)

  /** The rules in the order the combined pattern tries them. */
  const TokenSpecs: seq<Spec> := [
    Spec(KEYWORD, KeywordRule), Spec(ASSIGN, AssignRule), Spec(IDENTIFIER, IdentifierRule),
    Spec(NUMBER, NumberRule), Spec(OPERATOR, OperatorRule), Spec(DELIMITER, DelimiterRule),
    Spec(QUESTION, QuestionRule), Spec(STRING, StringRule), Spec(WHITESPACE, WhitespaceRule),
    Spec(UNKNOWN, UnknownRule)
  ]

  // Scanning with the pattern joined from a rule list. What follows up to
  // the rules of TokenSpecs holds for every rule list.

  /** The match at p: the first rule of specs from index i on that matches
      a non-empty slice of s at p, named after its category the way
      `lastgroup` names it. No rule of TokenSpecs matches the empty text,
      so the length check only keeps the slice well defined. */
  function FirstMatch(specs: seq<Spec>, s: string, p: nat, i: nat): (r: Option<Token>)
    requires i <= |specs|
    ensures r.Some? ==> 0 < |r.value.text| && p + |r.value.text| <= |s| && r.value.text == s[p..p + |r.value.text|]
    decreases |specs| - i
  {
    if i == |specs| then None
    else match specs[i].rule(s, p)
      case Some(n) =>
        if 0 < n && p + n <= |s| then Some(Token(specs[i].cat, s[p..p + n])) else FirstMatch(specs, s, p, i + 1)
      case None => FirstMatch(specs, s, p, i + 1)
  }

  /** Every match from p to the end of s, whitespace included. Like
      `re.finditer`, a position where nothing matches is skipped;
      AlwaysMatches shows that TokenSpecs leaves no such position. */
  function Lexemes(specs: seq<Spec>, s: string, p: nat): seq<Token>
    requires p <= |s|
    decreases |s| - p
  {
    if p == |s| then []
    else match FirstMatch(specs, s, p, 0)
      case Some(t) => [t] + Lexemes(specs, s, p + |t.text|)
      case None => Lexemes(specs, s, p + 1)
  }

  /** The lexemes that are kept: all but WHITESPACE. */
  function NonWhitespace(ts: seq<Token>): (r: seq<Token>)
    ensures forall i :: 0 <= i < |r| ==> r[i].cat != WHITESPACE
  {
    if ts == [] then []
    else (if ts[0].cat == WHITESPACE then [] else [ts[0]]) + NonWhitespace(ts[1..])
  }

  function Concat(ts: seq<Token>): string
  {
    if ts == [] then "" else ts[0].text + Concat(ts[1..])
  }

  /** What a lexeme of each category looks like. */
  predicate Shaped(t: Token) {
    match t.cat
    case KEYWORD => IsKeyword(t.text)
    case ASSIGN => t.text == ":="
    case IDENTIFIER =>
      |t.text| > 0 && IsIdentifierStart(t.text[0]) && forall i :: 0 <= i < |t.text| ==> IsWordChar(t.text[i])
    case NUMBER =>
      // digits, then optionally a point and more digits
      var d := RunLength(t.text, 0, IsDigit);
      d > 0 && (d == |t.text| || (t.text[d] == '.' && forall i :: d < i < |t.text| ==> IsDigit(t.text[i])))
    case OPERATOR => |t.text| > 0 && forall i :: 0 <= i < |t.text| ==> IsOperatorChar(t.text[i])
    case DELIMITER => |t.text| == 1 && IsDelimiterChar(t.text[0])
    case QUESTION => t.text == "?"
    case STRING =>
      |t.text| >= 2 && t.text[0] == '"' && t.text[|t.text| - 1] == '"'
      && forall i :: 0 < i < |t.text| - 1 ==> t.text[i] != '"'
    case WHITESPACE => |t.text| > 0 && forall i :: 0 <= i < |t.text| ==> IsSpace(t.text[i])
    case UNKNOWN => t.text != "\n" && |t.text| == 1
    case EOF => t.text == ""
  }

  /** r is a match of category c and length n; by FirstMatch's contract its
      text is then the n characters at p. */
  predicate Matched(r: Option<Token>, c: Category, n: nat) {
    r.Some? && r.value.cat == c && |r.value.text| == n
  }

  lemma Skip(specs: seq<Spec>, s: string, p: nat, i: nat)
    requires i < |specs| && specs[i].rule(s, p).None?
    ensures FirstMatch(specs, s, p, i) == FirstMatch(specs, s, p, i + 1)
  {
  }

  lemma Take(specs: seq<Spec>, s: string, p: nat, i: nat, n: nat)
    requires i < |specs| && specs[i].rule(s, p).Some? && specs[i].rule(s, p).value == n && 0 < n && p + n <= |s|
    ensures Matched(FirstMatch(specs, s, p, i), specs[i].cat, n)
  {
  }

  /** A rule that matches at p makes every earlier start of the search
      find a match. */
  lemma {:induction false} Reaches(specs: seq<Spec>, s: string, p: nat, i: nat, j: nat, n: nat)
    requires i <= j < |specs|
    requires specs[j].rule(s, p).Some? && specs[j].rule(s, p).value == n && 0 < n && p + n <= |s|
    ensures FirstMatch(specs, s, p, i).Some?
    decreases j - i
  {
    if i < j {
      if specs[i].rule(s, p).None? {
        Reaches(specs, s, p, i + 1, j, n);
      } else {
        var m := specs[i].rule(s, p).value;
        if !(0 < m && p + m <= |s|) {
          Reaches(specs, s, p, i + 1, j, n);
        }
      }
    }
  }

  /** Some rule matches at every position of every text. */
  ghost predicate Covering(specs: seq<Spec>) {
    forall s: string, p: nat :: p < |s| ==> FirstMatch(specs, s, p, 0).Some?
  }

  /** What a rule of category c that gave r at p matched has the shape of
      c, which is not EOF. */
  predicate ShapedMatch(c: Category, r: Option<nat>, s: string, p: nat) {
    r.Some? && 0 < r.value && p + r.value <= |s| ==> Shaped(Token(c, s[p..p + r.value])) && c != EOF
  }

  ghost predicate SpecShaped(spec: Spec) {
    forall s: string, p: nat :: ShapedMatch(spec.cat, spec.rule(s, p), s, p)
  }

  ghost predicate RulesShaped(specs: seq<Spec>) {
    forall i :: 0 <= i < |specs| ==> SpecShaped(specs[i])
  }

  lemma {:induction false} FirstMatchShaped(specs: seq<Spec>, s: string, p: nat, i: nat)
    requires i <= |specs| && RulesShaped(specs)
    ensures FirstMatch(specs, s, p, i).Some? ==> Shaped(FirstMatch(specs, s, p, i).value) && FirstMatch(specs, s, p, i).value.cat != EOF
    decreases |specs| - i
  {
    if i < |specs| {
      FirstMatchShaped(specs, s, p, i + 1);
    }
  }

  /** The scan at p takes the match found there and goes on after it. */
  lemma LexemesStep(specs: seq<Spec>, s: string, p: nat, t: Token)
    requires p < |s| && FirstMatch(specs, s, p, 0) == Some(t)
    ensures Lexemes(specs, s, p) == [t] + Lexemes(specs, s, p + |t.text|)
  {
  }

  /** Every lexeme has the shape of its category, and none is EOF. */
  lemma {:induction false} LexemesShaped(specs: seq<Spec>, s: string, p: nat)
    requires p <= |s| && RulesShaped(specs)
    ensures forall i :: 0 <= i < |Lexemes(specs, s, p)| ==> Shaped(Lexemes(specs, s, p)[i]) && Lexemes(specs, s, p)[i].cat != EOF
    decreases |s| - p
  {
    if p < |s| {
      FirstMatchShaped(specs, s, p, 0);
      match FirstMatch(specs, s, p, 0)
      case Some(t) =>
        LexemesStep(specs, s, p, t);
        LexemesShaped(specs, s, p + |t.text|);
      case None =>
        LexemesShaped(specs, s, p + 1);
    }
  }

  lemma ConcatCons(t: Token, ts: seq<Token>)
    ensures Concat([t] + ts) == t.text + Concat(ts)
  {
    assert ([t] + ts)[1..] == ts;
  }

  lemma SplitAt(s: string, p: nat, n: nat)
    requires p + n <= |s|
    ensures s[p..] == s[p..p + n] + s[p + n..]
  {
  }

  /** When some rule matches everywhere no character is lost: the
      lexemes, whitespace included, spell out the input exactly. */
  lemma {:induction false} LexemesCover(specs: seq<Spec>, s: string, p: nat)
    requires p <= |s| && Covering(specs)
    ensures Concat(Lexemes(specs, s, p)) == s[p..]
    decreases |s| - p
  {
    if p < |s| {
      var t := FirstMatch(specs, s, p, 0).value;
      LexemesStep(specs, s, p, t);
      ConcatCons(t, Lexemes(specs, s, p + |t.text|));
      LexemesCover(specs, s, p + |t.text|);
      SplitAt(s, p, |t.text|);
    }
  }

  lemma NonWhitespaceCons(t: Token, ts: seq<Token>)
    ensures NonWhitespace([t] + ts) == (if t.cat == WHITESPACE then [] else [t]) + NonWhitespace(ts)
  {
    assert ([t] + ts)[1..] == ts;
  }

  /** One step of the scan, after dropping whitespace: a match at p. */
  lemma KeptMatch(specs: seq<Spec>, s: string, p: nat, t: Token)
    requires p < |s| && FirstMatch(specs, s, p, 0) == Some(t)
    ensures NonWhitespace(Lexemes(specs, s, p)) == (if t.cat == WHITESPACE then [] else [t]) + NonWhitespace(Lexemes(specs, s, p + |t.text|))
  {
    LexemesStep(specs, s, p, t);
    NonWhitespaceCons(t, Lexemes(specs, s, p + |t.text|));
  }

  /** The loop step of `tokenize` on a match: the token is appended
      unless it is whitespace. */
  lemma KeptStep(specs: seq<Spec>, s: string, p: nat, t: Token, tokens: seq<Token>)
    requires p < |s| && FirstMatch(specs, s, p, 0) == Some(t)
    ensures t.cat == WHITESPACE ==> tokens + NonWhitespace(Lexemes(specs, s, p)) == tokens + NonWhitespace(Lexemes(specs, s, p + |t.text|))
    ensures t.cat != WHITESPACE ==> tokens + NonWhitespace(Lexemes(specs, s, p)) == (tokens + [t]) + NonWhitespace(Lexemes(specs, s, p + |t.text|))
  {
    KeptMatch(specs, s, p, t);
    var rest := NonWhitespace(Lexemes(specs, s, p + |t.text|));
    if t.cat == WHITESPACE {
      assert [] + rest == rest;
    } else {
      assert tokens + ([t] + rest) == (tokens + [t]) + rest;
    }
  }

  /** A position where no rule matches is skipped. */
  lemma SkippedStep(specs: seq<Spec>, s: string, p: nat)
    requires p < |s| && FirstMatch(specs, s, p, 0).None?
    ensures Lexemes(specs, s, p) == Lexemes(specs, s, p + 1)
  {
  }

  lemma {:induction false} NonWhitespaceNoEof(ts: seq<Token>)
    requires forall i :: 0 <= i < |ts| ==> ts[i].cat != EOF
    ensures forall i :: 0 <= i < |NonWhitespace(ts)| ==> NonWhitespace(ts)[i].cat != EOF
  {
    if ts != [] {
      NonWhitespaceNoEof(ts[1..]);
    }
  }

  // The rule list of lexer.py.

  lemma WhitespaceRuleAt(s: string, p: nat)
    requires p < |s| && IsSpace(s[p])
    ensures TokenSpecs[8].rule(s, p).Some? && TokenSpecs[8].rule(s, p).value == RunLength(s, p, IsSpace) && 0 < RunLength(s, p, IsSpace)
  {
  }

  lemma UnknownRuleAt(s: string, p: nat)
    requires p < |s| && s[p] != '\n'
    ensures TokenSpecs[9].rule(s, p).Some? && TokenSpecs[9].rule(s, p).value == 1
  {
  }

  /** Some rule matches at every position: WHITESPACE takes the newline
      and UNKNOWN every other character. */
  lemma AlwaysMatches(s: string, p: nat)
    requires p < |s|
    ensures FirstMatch(TokenSpecs, s, p, 0).Some?
  {
    if IsSpace(s[p]) {
      WhitespaceRuleAt(s, p);
      Reaches(TokenSpecs, s, p, 0, 8, RunLength(s, p, IsSpace));
    } else {
      UnknownRuleAt(s, p);
      Reaches(TokenSpecs, s, p, 0, 9, 1);
    }
  }

  lemma TokenSpecsCovering()
    ensures Covering(TokenSpecs)
  {
    forall s: string, p: nat | p < |s|
      ensures FirstMatch(TokenSpecs, s, p, 0).Some?
    {
      AlwaysMatches(s, p);
    }
  }

  // The shape of what each rule matches.

  lemma KeywordShaped()
    ensures SpecShaped(Spec(KEYWORD, KeywordRule))
  {
    forall s: string, p: nat
      ensures ShapedMatch(KEYWORD, KeywordRule(s, p), s, p)
    {
      KeywordRuleIsWord(s, p);
    }
  }

  lemma AssignShaped()
    ensures SpecShaped(Spec(ASSIGN, AssignRule))
  {
  }

  lemma IdentifierShaped()
    ensures SpecShaped(Spec(IDENTIFIER, IdentifierRule))
  {
    forall s: string, p: nat
      ensures ShapedMatch(IDENTIFIER, IdentifierRule(s, p), s, p)
    {
      if p <= |s| {
        RunIsMaximal(s, p, IsWordChar);
      }
    }
  }

  /** A maximal digit run of s at p is the maximal digit run at the start
      of any slice from p that contains it. */
  lemma DigitsOfSlice(s: string, p: nat, n: nat, d: nat)
    requires d <= n && p + n <= |s|
    requires forall k :: p <= k < p + d ==> IsDigit(s[k])
    requires p + d == |s| || !IsDigit(s[p + d])
    ensures RunLength(s[p..p + n], 0, IsDigit) == d
  {
    var t := s[p..p + n];
    assert forall k :: 0 <= k < d ==> t[k] == s[p + k];
    RunLengthIs(t, 0, IsDigit, d);
  }

  /** A NUMBER match with a fraction: digits, the point, digits. */
  lemma FractionShaped(s: string, p: nat, n: nat, d: nat)
    requires p + n <= |s| && 0 < d && d < n && s[p + d] == '.'
    requires forall k :: p <= k < p + d ==> IsDigit(s[k])
    requires forall k :: p + d < k < p + n ==> IsDigit(s[k])
    ensures Shaped(Token(NUMBER, s[p..p + n]))
  {
    DigitsOfSlice(s, p, n, d);
    var t := s[p..p + n];
    assert forall k :: 0 <= k < n ==> t[k] == s[p + k];
  }

  /** A NUMBER match starts and ends on a word boundary. */
  lemma NumberRuleBoundaries(s: string, p: nat)
    requires NumberRule(s, p).Some?
    ensures p + NumberRule(s, p).value <= |s|
    ensures Boundary(s, p) && Boundary(s, p + NumberRule(s, p).value)
  {
    RunIsMaximal(s, p, IsDigit);
    if p + RunLength(s, p, IsDigit) < |s| && s[p + RunLength(s, p, IsDigit)] == '.' {
      RunIsMaximal(s, p + RunLength(s, p, IsDigit) + 1, IsDigit);
    }
  }

  /** A NUMBER match is the maximal digit run at p, possibly followed by
      a point and more digits. */
  lemma NumberRuleParts(s: string, p: nat)
    requires NumberRule(s, p).Some?
    ensures var d := RunLength(s, p, IsDigit); var n := NumberRule(s, p).value;
      && 0 < d <= n && p + n <= |s|
      && (forall k :: p <= k < p + d ==> IsDigit(s[k]))
      && (p + d == |s| || !IsDigit(s[p + d]))
      && (n == d || (s[p + d] == '.' && forall k :: p + d < k < p + n ==> IsDigit(s[k])))
  {
    var d := RunLength(s, p, IsDigit);
    RunIsMaximal(s, p, IsDigit);
    if p + d < |s| && s[p + d] == '.' {
      RunIsMaximal(s, p + d + 1, IsDigit);
    }
  }

  lemma NumberMatchShaped(s: string, p: nat)
    ensures ShapedMatch(NUMBER, NumberRule(s, p), s, p)
  {
    if NumberRule(s, p).Some? {
      NumberRuleParts(s, p);
      var n := NumberRule(s, p).value;
      var d := RunLength(s, p, IsDigit);
      if n == d {
        DigitsOfSlice(s, p, n, d);
      } else {
        FractionShaped(s, p, n, d);
      }
    }
  }

  lemma NumberShaped()
    ensures SpecShaped(Spec(NUMBER, NumberRule))
  {
    forall s: string, p: nat
      ensures ShapedMatch(NUMBER, NumberRule(s, p), s, p)
    {
      NumberMatchShaped(s, p);
    }
  }

  lemma OperatorShaped()
    ensures SpecShaped(Spec(OPERATOR, OperatorRule))
  {
    forall s: string, p: nat
      ensures ShapedMatch(OPERATOR, OperatorRule(s, p), s, p)
    {
      if p <= |s| {
        RunIsMaximal(s, p, IsOperatorChar);
      }
    }
  }

  lemma DelimiterShaped()
    ensures SpecShaped(Spec(DELIMITER, DelimiterRule))
  {
  }

  lemma QuestionShaped()
    ensures SpecShaped(Spec(QUESTION, QuestionRule))
  {
  }

  lemma StringShaped()
    ensures SpecShaped(Spec(STRING, StringRule))
  {
    forall s: string, p: nat
      ensures ShapedMatch(STRING, StringRule(s, p), s, p)
    {
      if p < |s| {
        QuoteIsFirst(s, p + 1);
      }
    }
  }

  lemma WhitespaceShaped()
    ensures SpecShaped(Spec(WHITESPACE, WhitespaceRule))
  {
    forall s: string, p: nat
      ensures ShapedMatch(WHITESPACE, WhitespaceRule(s, p), s, p)
    {
      if p <= |s| {
        RunIsMaximal(s, p, IsSpace);
      }
    }
  }

  lemma UnknownShaped()
    ensures SpecShaped(Spec(UNKNOWN, UnknownRule))
  {
  }

  /** What each rule of TokenSpecs matches has the shape of its category. */
  lemma TokenSpecsShaped()
    ensures RulesShaped(TokenSpecs)
  {
    KeywordShaped();
    AssignShaped();
    IdentifierShaped();
    NumberShaped();
    OperatorShaped();
    DelimiterShaped();
    QuestionShaped();
    StringShaped();
    WhitespaceShaped();
    UnknownShaped();
  }

  /** The token list `tokenize` produces for a source text. */
  function Tokens(code: string): seq<Token>
  {
    NonWhitespace(Lexemes(TokenSpecs, code, 0)) + [EofToken]
  }

  /** A token list as the parser receives it: one EOF, at the end. */
  predicate WellFormed(tokens: seq<Token>) {
    && |tokens| > 0
    && tokens[|tokens| - 1] == EofToken
    && forall i :: 0 <= i < |tokens| - 1 ==> tokens[i].cat != EOF
  }

  /** The token list ends with its only EOF and holds no WHITESPACE. */
  lemma TokensWellFormed(code: string)
    ensures WellFormed(Tokens(code))
    ensures forall i :: 0 <= i < |Tokens(code)| ==> Tokens(code)[i].cat != WHITESPACE
  {
    TokenSpecsShaped();
    LexemesShaped(TokenSpecs, code, 0);
    NonWhitespaceNoEof(Lexemes(TokenSpecs, code, 0));
  }

  lemma {:induction false} NonWhitespaceShaped(ts: seq<Token>)
    requires forall i :: 0 <= i < |ts| ==> Shaped(ts[i])
    ensures forall i :: 0 <= i < |NonWhitespace(ts)| ==> Shaped(NonWhitespace(ts)[i])
  {
    if ts != [] {
      NonWhitespaceShaped(ts[1..]);
    }
  }

  /** Every token before EOF has the shape of its category. */
  lemma TokensShaped(code: string)
    ensures forall i :: 0 <= i < |Tokens(code)| - 1 ==> Shaped(Tokens(code)[i])
  {
    TokenSpecsShaped();
    LexemesShaped(TokenSpecs, code, 0);
    NonWhitespaceShaped(Lexemes(TokenSpecs, code, 0));
  }

  /** No character of the source is lost: the lexemes spell it out, and
      the ones dropped are runs of whitespace (LexemesShaped). */
  lemma SourceCovered(code: string)
    ensures Concat(Lexemes(TokenSpecs, code, 0)) == code
  {
    TokenSpecsCovering();
    LexemesCover(TokenSpecs, code, 0);
  }

  // What the rules do on particular inputs.

  /** The four rules that need a word character or a colon do not match
      where there is neither. */
  lemma NoWordRule(s: string, p: nat)
    requires p < |s| && !IsWordChar(s[p]) && s[p] != ':'
    ensures TokenSpecs[0].rule(s, p).None? && TokenSpecs[1].rule(s, p).None?
    ensures TokenSpecs[2].rule(s, p).None? && TokenSpecs[3].rule(s, p).None?
  {
    assert RunLength(s, p, IsWordChar) == 0;
    KeywordsAreWords(WordAt(s, p));
    KeywordRuleIsWord(s, p);
  }

  lemma SkipWordRules(s: string, p: nat)
    requires p < |s| && !IsWordChar(s[p]) && s[p] != ':'
    ensures FirstMatch(TokenSpecs, s, p, 0) == FirstMatch(TokenSpecs, s, p, 4)
  {
    NoWordRule(s, p);
    Skip(TokenSpecs, s, p, 0); Skip(TokenSpecs, s, p, 1); Skip(TokenSpecs, s, p, 2); Skip(TokenSpecs, s, p, 3);
  }

  lemma NoSymbolRule(s: string, p: nat)
    requires p < |s| && !IsOperatorChar(s[p]) && !IsDelimiterChar(s[p]) && s[p] != '?'
    ensures TokenSpecs[4].rule(s, p).None? && TokenSpecs[5].rule(s, p).None? && TokenSpecs[6].rule(s, p).None?
  {
  }

  /** Past the word and symbol rules: STRING is the first that can match. */
  lemma SkipToString(s: string, p: nat)
    requires p < |s| && s[p] == '"'
    ensures FirstMatch(TokenSpecs, s, p, 0) == FirstMatch(TokenSpecs, s, p, 7)
  {
    SkipWordRules(s, p);
    NoSymbolRule(s, p);
    Skip(TokenSpecs, s, p, 4); Skip(TokenSpecs, s, p, 5); Skip(TokenSpecs, s, p, 6);
  }

  lemma SkipToWhitespace(s: string, p: nat)
    requires p < |s| && IsSpace(s[p])
    ensures FirstMatch(TokenSpecs, s, p, 0) == FirstMatch(TokenSpecs, s, p, 8)
  {
    SkipWordRules(s, p);
    NoSymbolRule(s, p);
    Skip(TokenSpecs, s, p, 4); Skip(TokenSpecs, s, p, 5); Skip(TokenSpecs, s, p, 6);
    assert TokenSpecs[7].rule(s, p).None?;
    Skip(TokenSpecs, s, p, 7);
  }

  /** A whitespace character starts a WHITESPACE lexeme running to the end
      of the whitespace. */
  lemma WhitespaceLexeme(s: string, p: nat)
    requires p < |s| && IsSpace(s[p])
    ensures Matched(FirstMatch(TokenSpecs, s, p, 0), WHITESPACE, RunLength(s, p, IsSpace))
  {
    SkipToWhitespace(s, p);
    WhitespaceRuleAt(s, p);
    Take(TokenSpecs, s, p, 8, RunLength(s, p, IsSpace));
  }

  predicate AllSpace(s: string) {
    forall i :: 0 <= i < |s| ==> IsSpace(s[i])
  }

  lemma {:induction false} SpaceLexemes(s: string, p: nat)
    requires p <= |s| && AllSpace(s)
    ensures NonWhitespace(Lexemes(TokenSpecs, s, p)) == []
  {
    if p < |s| {
      WhitespaceLexeme(s, p);
      RunLengthIs(s, p, IsSpace, |s| - p);
      KeptMatch(TokenSpecs, s, p, FirstMatch(TokenSpecs, s, p, 0).value);
    }
  }

  /** Whitespace-only input gives only the EOF sentinel. */
  lemma WhitespaceOnly(code: string)
    requires AllSpace(code)
    ensures Tokens(code) == [EofToken]
  {
    SpaceLexemes(code, 0);
  }

  /** A run of word characters that cannot be extended either way is the
      word at p; this is what the `\b` after a keyword alternative checks. */
  lemma WholeWord(s: string, p: nat, w: string)
    requires p <= |s| && IsWord(w)
    ensures StartsAt(s, p, w) && Boundary(s, p + |w|) <==> w == WordAt(s, p)
  {
    RunIsMaximal(s, p, IsWordChar);
    if StartsAt(s, p, w) && Boundary(s, p + |w|) {
      assert IsWordChar(s[p + |w| - 1]) by { assert s[p + |w| - 1] == w[|w| - 1]; }
      RunLengthIs(s, p, IsWordChar, |w|);
    }
  }

  predicate IsWord(w: string) {
    |w| > 0 && forall k :: 0 <= k < |w| ==> IsWordChar(w[k])
  }

  lemma {:induction false} AlternationIsWord(s: string, p: nat, ws: seq<string>)
    requires p <= |s|
    requires forall i :: 0 <= i < |ws| ==> IsWord(ws[i])
    ensures Alternation(s, p, ws) == if WordAt(s, p) in ws then Some(WordAt(s, p)) else None
  {
    if ws != [] {
      WholeWord(s, p, ws[0]);
      AlternationIsWord(s, p, ws[1..]);
      assert WordAt(s, p) in ws <==> WordAt(s, p) == ws[0] || WordAt(s, p) in ws[1..];
    }
  }

  /** Every keyword is a non-empty word. */
  lemma KeywordsAreWords(w: string)
    ensures IsKeyword(w) ==> IsWord(w)
  {
    assert IsWord("var") && IsWord("return") && IsWord("const") && IsWord("repeat") && IsWord("until");
    assert IsWord("do") && IsWord("end") && IsWord("func") && IsWord("log");
  }

  /** The KEYWORD rule matches exactly where a boundary is followed by a
      whole word that is a keyword, and then it matches that word: the
      order of the alternatives does not matter, and `variable` or `do_x`
      is no keyword. */
  lemma KeywordRuleIsWord(s: string, p: nat)
    ensures KeywordRule(s, p).Some? <==> p < |s| && Boundary(s, p) && IsKeyword(WordAt(s, p))
    ensures KeywordRule(s, p).Some? ==> KeywordRule(s, p).value == |WordAt(s, p)|
  {
    if p < |s| {
      assert IsWord("var") && IsWord("return") && IsWord("const") && IsWord("repeat") && IsWord("until");
      assert IsWord("do") && IsWord("end") && IsWord("func") && IsWord("log");
      AlternationIsWord(s, p, Keywords);
    }
  }

  lemma IdentifierRuleAt(s: string, p: nat)
    requires p < |s| && Boundary(s, p) && IsIdentifierStart(s[p]) && !IsKeyword(WordAt(s, p))
    ensures TokenSpecs[0].rule(s, p).None? && TokenSpecs[1].rule(s, p).None?
    ensures TokenSpecs[2].rule(s, p).Some? && TokenSpecs[2].rule(s, p).value == |WordAt(s, p)| && 0 < |WordAt(s, p)|
  {
    var n := RunLength(s, p, IsWordChar);
    RunIsMaximal(s, p, IsWordChar);
    assert IsWordChar(s[p + n - 1]);
    KeywordRuleIsWord(s, p);
  }

  /** A word starting at a boundary with a letter or underscore is one
      token: KEYWORD when the whole word is a keyword, IDENTIFIER otherwise
      (`var` against `variable` and `do_x`). */
  lemma KeywordOrIdentifier(s: string, p: nat)
    requires p < |s| && Boundary(s, p) && IsIdentifierStart(s[p])
    ensures Matched(FirstMatch(TokenSpecs, s, p, 0), if IsKeyword(WordAt(s, p)) then KEYWORD else IDENTIFIER, |WordAt(s, p)|)
  {
    if IsKeyword(WordAt(s, p)) {
      KeywordRuleIsWord(s, p);
      KeywordsAreWords(WordAt(s, p));
      Take(TokenSpecs, s, p, 0, |WordAt(s, p)|);
    } else {
      IdentifierRuleAt(s, p);
      Skip(TokenSpecs, s, p, 0);
      Skip(TokenSpecs, s, p, 1);
      Take(TokenSpecs, s, p, 2, |WordAt(s, p)|);
    }
  }

  lemma AssignRuleAt(s: string, p: nat)
    requires p + 1 < |s| && s[p] == ':' && s[p + 1] == '='
    ensures TokenSpecs[0].rule(s, p).None? && TokenSpecs[1].rule(s, p).Some? && TokenSpecs[1].rule(s, p).value == 2
  {
    assert RunLength(s, p, IsWordChar) == 0;
    KeywordsAreWords(WordAt(s, p));
    KeywordRuleIsWord(s, p);
  }

  /** `:=` is one ASSIGN token, never a DELIMITER and an OPERATOR. */
  lemma AssignIsOneToken(s: string, p: nat)
    requires p + 1 < |s| && s[p] == ':' && s[p + 1] == '='
    ensures Matched(FirstMatch(TokenSpecs, s, p, 0), ASSIGN, 2)
  {
    AssignRuleAt(s, p);
    Skip(TokenSpecs, s, p, 0);
    Take(TokenSpecs, s, p, 1, 2);
  }

  /** An operator character starts an OPERATOR token that takes the whole
      run of operator characters (`>=` and `&&` are one token each). */
  lemma OperatorIsMaximalRun(s: string, p: nat)
    requires p < |s| && IsOperatorChar(s[p])
    ensures Matched(FirstMatch(TokenSpecs, s, p, 0), OPERATOR, RunLength(s, p, IsOperatorChar))
  {
    SkipWordRules(s, p);
    OperatorRuleAt(s, p);
    Take(TokenSpecs, s, p, 4, RunLength(s, p, IsOperatorChar));
  }

  lemma OperatorRuleAt(s: string, p: nat)
    requires p < |s| && IsOperatorChar(s[p])
    ensures TokenSpecs[4].rule(s, p).Some? && TokenSpecs[4].rule(s, p).value == RunLength(s, p, IsOperatorChar)
  {
  }

  lemma StringRuleAt(s: string, p: nat, j: nat)
    requires p < |s| && s[p] == '"' && QuoteFrom(s, p + 1) == Some(j)
    ensures TokenSpecs[7].rule(s, p).Some? && TokenSpecs[7].rule(s, p).value == j + 1 - p && j < |s|
  {
  }

  /** A double quote with a closing one after it starts a STRING token that
      ends at the next double quote, quotes included. */
  lemma StringUpToNextQuote(s: string, p: nat, j: nat)
    requires p < |s| && s[p] == '"' && QuoteFrom(s, p + 1) == Some(j)
    ensures Matched(FirstMatch(TokenSpecs, s, p, 0), STRING, j + 1 - p)
  {
    SkipToString(s, p);
    StringRuleAt(s, p, j);
    Take(TokenSpecs, s, p, 7, j + 1 - p);
  }

  lemma UnmatchedQuoteRules(s: string, p: nat)
    requires p < |s| && s[p] == '"' && QuoteFrom(s, p + 1).None?
    ensures TokenSpecs[7].rule(s, p).None? && TokenSpecs[8].rule(s, p).None? && TokenSpecs[9].rule(s, p).Some? && TokenSpecs[9].rule(s, p).value == 1
  {
  }

  /** A double quote with no closing one is an UNKNOWN token of its own. */
  lemma UnmatchedQuote(s: string, p: nat)
    requires p < |s| && s[p] == '"' && QuoteFrom(s, p + 1).None?
    ensures Matched(FirstMatch(TokenSpecs, s, p, 0), UNKNOWN, 1)
  {
    SkipToString(s, p);
    UnmatchedQuoteRules(s, p);
    Skip(TokenSpecs, s, p, 7); Skip(TokenSpecs, s, p, 8);
    Take(TokenSpecs, s, p, 9, 1);
  }

  // The cursor over the token list.

  class Lexer {
    const tokens: seq<Token>
    var position: nat

    predicate Valid()
      reads this
    {
      WellFormed(tokens) && position < |tokens|
    }

    constructor (code: string)
      ensures Valid() && tokens == Tokens(code) && position == 0
    {
      var ts := Tokenize(TokenSpecs, code);
      TokensWellFormed(code);
      tokens := ts;
      position := 0;
    }

    /** Builds the token list by walking the matches of the pattern joined
        from specs left to right; the constructor joins TokenSpecs. */
    static method Tokenize(specs: seq<Spec>, code: string) returns (tokens: seq<Token>)
      ensures tokens == NonWhitespace(Lexemes(specs, code, 0)) + [EofToken]
    {
      tokens := [];
      var p := 0;
      while p < |code|
        invariant p <= |code|
        invariant tokens + NonWhitespace(Lexemes(specs, code, p)) == NonWhitespace(Lexemes(specs, code, 0))
        decreases |code| - p
      {
        var m := FirstMatch(specs, code, p, 0);
        if m.Some? {
          var t := m.value;
          KeptStep(specs, code, p, t, tokens);
          if t.cat != WHITESPACE {
            tokens := tokens + [t];
          }
          p := p + |t.text|;
        } else {
          SkippedStep(specs, code, p);
          p := p + 1;
        }
      }
      tokens := tokens + [EofToken];
    }

    /** Moves to the next token, but never past the EOF sentinel. */
    method Advance()
      requires Valid()
      modifies this
      ensures Valid()
      ensures position == if old(position) < |tokens| - 1 then old(position) + 1 else old(position)
    {
      if position < |tokens| - 1 {
        position := position + 1;
      }
    }

    /** The current token; it is EOF exactly at the last position. */
    function Peek(): (t: Token)
      reads this
      requires Valid()
      ensures t == tokens[position] && t in tokens
      ensures t.cat == EOF <==> position == |tokens| - 1
    {
      tokens[position]
    }
  }
}
