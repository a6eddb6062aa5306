/** What lowering promises about the names it makes up: every temporary and
    every label of a run is taken exactly once, as many temporaries as
    binary nodes are lowered and two labels per `if` and `loop`, every jump
    goes to a label that is placed exactly once, and the end label of a
    loop is never jumped to. */
module LoweringLaws {
  import opened Text
  import opened Syntax
  import opened Lowering

  // The numbers an instruction sequence uses.

  /** The two kinds of numbers lowering hands out. */
  datatype Kind = Temporaries | Labels

  /** Whether instruction i introduces number x of kind k: a computation
      defines its temporary, a mark places its label. */
  predicate Introduces(i: Instr, k: Kind, x: nat) {
    match k
    case Temporaries => i.Compute? && i.temp == x
    case Labels => i.Mark? && i.dest == x
  }

  predicate IsJump(i: Instr) {
    i.JumpUnless? || i.JumpIf? || i.Jump?
  }

  /** How many instructions of code introduce number x of kind k. */
  function Count(code: seq<Instr>, k: Kind, x: nat): nat {
    if code == [] then 0
    else Count(code[..|code| - 1], k, x) + if Introduces(code[|code| - 1], k, x) then 1 else 0
  }

  lemma {:induction false} CountConcat(a: seq<Instr>, b: seq<Instr>, k: Kind, x: nat)
    ensures Count(a + b, k, x) == Count(a, k, x) + Count(b, k, x)
    decreases |b|
  {
    if b == [] {
      assert a + b == a;
    } else {
      assert (a + b)[..|a + b| - 1] == a + b[..|b| - 1];
      CountConcat(a, b[..|b| - 1], k, x);
    }
  }

  lemma CountOne(i: Instr, k: Kind, x: nat)
    ensures Count([i], k, x) == if Introduces(i, k, x) then 1 else 0
  {
    assert [i][..0] == [];
  }

  /** Each instruction that introduces x is counted. */
  lemma {:induction false} CountMember(code: seq<Instr>, k: Kind, i: nat, x: nat)
    requires i < |code| && Introduces(code[i], k, x)
    ensures Count(code, k, x) >= 1
    decreases |code|
  {
    if i < |code| - 1 {
      assert code[..|code| - 1][i] == code[i];
      CountMember(code[..|code| - 1], k, i, x);
    }
  }

  /** Two instructions that both introduce x make x counted twice. */
  lemma CountTwice(code: seq<Instr>, k: Kind, i: nat, j: nat, x: nat)
    requires i < j < |code| && Introduces(code[i], k, x) && Introduces(code[j], k, x)
    ensures Count(code, k, x) >= 2
  {
    assert code == code[..j] + code[j..];
    CountConcat(code[..j], code[j..], k, x);
    assert code[..j][i] == code[i];
    CountMember(code[..j], k, i, x);
    assert code[j..][0] == code[j];
    CountMember(code[j..], k, 0, x);
  }

  /** A number counted comes from some instruction. */
  lemma {:induction false} CountWitness(code: seq<Instr>, k: Kind, x: nat) returns (i: nat)
    requires Count(code, k, x) > 0
    ensures i < |code| && Introduces(code[i], k, x)
    decreases |code|
  {
    if Introduces(code[|code| - 1], k, x) {
      i := |code| - 1;
    } else {
      i := CountWitness(code[..|code| - 1], k, x);
      assert code[..|code| - 1][i] == code[i];
    }
  }

  /** Every jump of code goes to a label in lo+1 .. hi. */
  ghost predicate JumpsWithin(code: seq<Instr>, lo: nat, hi: nat) {
    forall i :: 0 <= i < |code| && IsJump(code[i]) ==> lo < code[i].dest <= hi
  }

  lemma JumpsConcat(a: seq<Instr>, b: seq<Instr>, lo: nat, hi: nat)
    requires JumpsWithin(a, lo, hi) && JumpsWithin(b, lo, hi)
    ensures JumpsWithin(a + b, lo, hi)
  {
    forall i | 0 <= i < |a + b| && IsJump((a + b)[i])
      ensures lo < (a + b)[i].dest <= hi
    {
      if i >= |a| {
        assert (a + b)[i] == b[i - |a|];
      }
    }
  }

  lemma JumpsWithinWiden(code: seq<Instr>, lo: nat, hi: nat, lo': nat, hi': nat)
    requires JumpsWithin(code, lo, hi) && lo' <= lo && hi <= hi'
    ensures JumpsWithin(code, lo', hi')
  {
  }


  // The reference counts: which nodes the walk lowers.

  /** The binary and comparison nodes lowering reaches in n; the operands
      of `&&`/`||`, of a return and of a call are never reached, and
      neither is the expression of a log whose string is not empty. */
  function Binaries(n: Node): nat
    decreases Size(n), 1
  {
    match n
    case Assign(_, e) => Binaries(e)
    case BinOp(_, a, b) => 1 + Binaries(a) + Binaries(b)
    case Compare(_, a, b) => 1 + Binaries(a) + Binaries(b)
    case If(c, th, el) => Binaries(c) + BlockBinaries(th) + BlockBinaries(el)
    case Loop(body, c) => BlockBinaries(body) + Binaries(c)
    case Log(s, e) => if s.Some? && s.value != "" then 0 else OptionBinaries(e)
    case FuncDef(_, _, body) => BlockBinaries(body)
    case _ => 0
  }

  function OptionBinaries(e: Option<Node>): nat
    decreases OptionSize(e), 2
  {
    if e.Some? then Binaries(e.value) else 0
  }

  function BlockBinaries(ns: seq<Node>): nat
    decreases BlockSize(ns), 3
  {
    if ns == [] then 0 else BlockBinaries(ns[..|ns| - 1]) + Binaries(ns[|ns| - 1])
  }

  /** The `if` and `loop` nodes lowering reaches in n. */
  function Branches(n: Node): nat
    decreases Size(n), 1
  {
    match n
    case Assign(_, e) => Branches(e)
    case BinOp(_, a, b) => Branches(a) + Branches(b)
    case Compare(_, a, b) => Branches(a) + Branches(b)
    case If(c, th, el) => 1 + Branches(c) + BlockBranches(th) + BlockBranches(el)
    case Loop(body, c) => 1 + BlockBranches(body) + Branches(c)
    case Log(s, e) => if s.Some? && s.value != "" then 0 else OptionBranches(e)
    case FuncDef(_, _, body) => BlockBranches(body)
    case _ => 0
  }

  function OptionBranches(e: Option<Node>): nat
    decreases OptionSize(e), 2
  {
    if e.Some? then Branches(e.value) else 0
  }

  function BlockBranches(ns: seq<Node>): nat
    decreases BlockSize(ns), 3
  {
    if ns == [] then 0 else BlockBranches(ns[..|ns| - 1]) + Branches(ns[|ns| - 1])
  }


  // Numbering: what lowering with the counters at t and l takes and uses.

  /** Code that introduces each number a+1 .. b of kind k exactly once and
      no other number of that kind. */
  ghost predicate Exactly(code: seq<Instr>, k: Kind, a: nat, b: nat) {
    a <= b && forall x: nat :: Count(code, k, x) == if a < x <= b then 1 else 0
  }

  /** Code that defines exactly the temporaries t0+1 .. t1 and places
      exactly the labels l0+1 .. l1, each once. */
  ghost predicate Takes(code: seq<Instr>, t0: nat, t1: nat, l0: nat, l1: nat) {
    Exactly(code, Temporaries, t0, t1) && Exactly(code, Labels, l0, l1)
  }

  /** What lowering with the counters at t and l leaves behind takes the
      numbers the counters moved over, and jumps only to labels it places. */
  ghost predicate Numbered(r: Lowered, t: nat, l: nat) {
    Takes(r.code, t, r.temps, l, r.labels) && JumpsWithin(r.code, l, r.labels)
  }

  /** Emitting nothing takes nothing. */
  lemma Leaf(t: nat, l: nat)
    ensures Takes([], t, t, l, l) && JumpsWithin([], l, l)
  {
  }

  /** An instruction that neither defines, places nor jumps takes nothing. */
  lemma Plain(i: Instr, t: nat, l: nat)
    requires !i.Compute? && !i.Mark? && !IsJump(i)
    ensures Takes([i], t, t, l, l) && JumpsWithin([i], l, l)
  {
    forall x: nat
      ensures Count([i], Temporaries, x) == 0 && Count([i], Labels, x) == 0
    {
      CountOne(i, Temporaries, x);
      CountOne(i, Labels, x);
    }
  }

  /** Code run after code: the counters run on. */
  lemma Sequenced(a: seq<Instr>, b: seq<Instr>, t0: nat, t1: nat, t2: nat, l0: nat, l1: nat, l2: nat)
    requires Takes(a, t0, t1, l0, l1) && JumpsWithin(a, l0, l1)
    requires Takes(b, t1, t2, l1, l2) && JumpsWithin(b, l1, l2)
    ensures Takes(a + b, t0, t2, l0, l2) && JumpsWithin(a + b, l0, l2)
  {
    forall x: nat
      ensures Count(a + b, Temporaries, x) == (if t0 < x <= t2 then 1 else 0)
      ensures Count(a + b, Labels, x) == (if l0 < x <= l2 then 1 else 0)
    {
      CountConcat(a, b, Temporaries, x);
      CountConcat(a, b, Labels, x);
    }
    JumpsWithinWiden(a, l0, l1, l0, l2);
    JumpsWithinWiden(b, l1, l2, l0, l2);
    JumpsConcat(a, b, l0, l2);
  }

  /** The layout of a binary node: its temporary, t+1, is taken before
      the operands' but defined after them. */
  lemma BinaryLayout(lc: seq<Instr>, rc: seq<Instr>, a: string, op: string, b: string,
                     t: nat, lt: nat, rt: nat, l: nat, ll: nat, rl: nat)
    requires Takes(lc, t + 1, lt, l, ll) && JumpsWithin(lc, l, ll)
    requires Takes(rc, lt, rt, ll, rl) && JumpsWithin(rc, ll, rl)
    ensures var code := lc + rc + [Compute(t + 1, a, op, b)];
      Takes(code, t, rt, l, rl) && JumpsWithin(code, l, rl)
  {
    var c := Compute(t + 1, a, op, b);
    Sequenced(lc, rc, t + 1, lt, rt, l, ll, rl);
    forall x: nat
      ensures Count(lc + rc + [c], Temporaries, x) == (if t < x <= rt then 1 else 0)
      ensures Count(lc + rc + [c], Labels, x) == (if l < x <= rl then 1 else 0)
    {
      CountConcat(lc + rc, [c], Temporaries, x);
      CountConcat(lc + rc, [c], Labels, x);
      CountOne(c, Temporaries, x);
      CountOne(c, Labels, x);
    }
    JumpsConcat(lc + rc, [c], l, rl);
  }

  /** The counts of the shape of an `if`, piece by piece. */
  lemma IfPieces(c: seq<Instr>, ju: Instr, tb: seq<Instr>, j: Instr, m: Instr, eb: seq<Instr>, m2: Instr, k: Kind, x: nat)
    ensures Count(c + [ju] + tb + [j, m] + eb + [m2], k, x)
      == Count(c, k, x) + Count([ju], k, x) + Count(tb, k, x) + Count([j], k, x) + Count([m], k, x)
         + Count(eb, k, x) + Count([m2], k, x)
  {
    var p1 := c + [ju];
    var p2 := p1 + tb;
    var p3 := p2 + [j, m];
    var p4 := p3 + eb;
    CountConcat(p4, [m2], k, x);
    CountConcat(p3, eb, k, x);
    assert p3 == p2 + [j] + [m];
    CountConcat(p2 + [j], [m], k, x);
    CountConcat(p2, [j], k, x);
    CountConcat(p1, tb, k, x);
    CountConcat(c, [ju], k, x);
  }

  /** The layout of an `if` whose condition left the label counter at cl:
      its labels are cl+1 (else) and cl+2 (end), taken before its blocks'. */
  lemma IfLayout(cc: seq<Instr>, c: string, tc: seq<Instr>, ec: seq<Instr>,
                 t: nat, ct: nat, tt: nat, et: nat, l: nat, cl: nat, tl: nat, el: nat)
    requires Takes(cc, t, ct, l, cl) && JumpsWithin(cc, l, cl)
    requires Takes(tc, ct, tt, cl + 2, tl) && JumpsWithin(tc, cl + 2, tl)
    requires Takes(ec, tt, et, tl, el) && JumpsWithin(ec, tl, el)
    ensures var code := cc + [JumpUnless(c, cl + 1)] + tc + [Jump(cl + 2), Mark(cl + 1)] + ec + [Mark(cl + 2)];
      Takes(code, t, et, l, el) && JumpsWithin(code, l, el)
  {
    var ju, j, m, m2 := JumpUnless(c, cl + 1), Jump(cl + 2), Mark(cl + 1), Mark(cl + 2);
    forall x: nat
      ensures Count(cc + [ju] + tc + [j, m] + ec + [m2], Temporaries, x) == (if t < x <= et then 1 else 0)
      ensures Count(cc + [ju] + tc + [j, m] + ec + [m2], Labels, x) == (if l < x <= el then 1 else 0)
    {
      IfPieces(cc, ju, tc, j, m, ec, m2, Temporaries, x);
      IfPieces(cc, ju, tc, j, m, ec, m2, Labels, x);
      CountOne(ju, Temporaries, x);
      CountOne(ju, Labels, x);
      CountOne(j, Temporaries, x);
      CountOne(j, Labels, x);
      CountOne(m, Temporaries, x);
      CountOne(m, Labels, x);
      CountOne(m2, Temporaries, x);
      CountOne(m2, Labels, x);
    }
    IfJumps(cc, c, tc, ec, l, cl, tl, el);
  }

  lemma IfJumps(cc: seq<Instr>, c: string, tc: seq<Instr>, ec: seq<Instr>, l: nat, cl: nat, tl: nat, el: nat)
    requires l <= cl && cl + 2 <= tl <= el
    requires JumpsWithin(cc, l, cl) && JumpsWithin(tc, cl + 2, tl) && JumpsWithin(ec, tl, el)
    ensures JumpsWithin(cc + [JumpUnless(c, cl + 1)] + tc + [Jump(cl + 2), Mark(cl + 1)] + ec + [Mark(cl + 2)], l, el)
  {
    var p1 := cc + [JumpUnless(c, cl + 1)];
    var p2 := p1 + tc;
    var p3 := p2 + [Jump(cl + 2), Mark(cl + 1)];
    var p4 := p3 + ec;
    JumpsWithinWiden(cc, l, cl, l, el);
    JumpsWithinWiden(tc, cl + 2, tl, l, el);
    JumpsWithinWiden(ec, tl, el, l, el);
    JumpsConcat(cc, [JumpUnless(c, cl + 1)], l, el);
    JumpsConcat(p1, tc, l, el);
    JumpsConcat(p2, [Jump(cl + 2), Mark(cl + 1)], l, el);
    JumpsConcat(p3, ec, l, el);
    JumpsConcat(p4, [Mark(cl + 2)], l, el);
  }

  /** The counts of the shape of a `loop`, piece by piece. */
  lemma LoopPieces(start: Instr, bb: seq<Instr>, c: seq<Instr>, ji: Instr, end: Instr, k: Kind, x: nat)
    ensures Count([start] + bb + c + [ji, end], k, x)
      == Count([start], k, x) + Count(bb, k, x) + Count(c, k, x) + Count([ji], k, x) + Count([end], k, x)
  {
    var p1 := [start] + bb;
    var p2 := p1 + c;
    assert p2 + [ji, end] == p2 + [ji] + [end];
    CountConcat(p2 + [ji], [end], k, x);
    CountConcat(p2, [ji], k, x);
    CountConcat(p1, c, k, x);
    CountConcat([start], bb, k, x);
  }

  /** The layout of a `loop` entered with the label counter at l: its labels
      are l+1 (start) and l+2 (end), taken before anything else. */
  lemma LoopLayout(bc: seq<Instr>, cc: seq<Instr>, c: string,
                   t: nat, bt: nat, ct: nat, l: nat, bl: nat, cl: nat)
    requires Takes(bc, t, bt, l + 2, bl) && JumpsWithin(bc, l + 2, bl)
    requires Takes(cc, bt, ct, bl, cl) && JumpsWithin(cc, bl, cl)
    ensures var code := [Mark(l + 1)] + bc + cc + [JumpIf(c, l + 1), Mark(l + 2)];
      Takes(code, t, ct, l, cl) && JumpsWithin(code, l, cl)
  {
    var start, ji, end := Mark(l + 1), JumpIf(c, l + 1), Mark(l + 2);
    forall x: nat
      ensures Count([start] + bc + cc + [ji, end], Temporaries, x) == (if t < x <= ct then 1 else 0)
      ensures Count([start] + bc + cc + [ji, end], Labels, x) == (if l < x <= cl then 1 else 0)
    {
      LoopPieces(start, bc, cc, ji, end, Temporaries, x);
      LoopPieces(start, bc, cc, ji, end, Labels, x);
      CountOne(start, Temporaries, x);
      CountOne(start, Labels, x);
      CountOne(ji, Temporaries, x);
      CountOne(ji, Labels, x);
      CountOne(end, Temporaries, x);
      CountOne(end, Labels, x);
    }
    JumpsWithinWiden(bc, l + 2, bl, l, cl);
    JumpsWithinWiden(cc, bl, cl, l, cl);
    JumpsConcat([start], bc, l, cl);
    JumpsConcat([start] + bc, cc, l, cl);
    JumpsConcat([start] + bc + cc, [ji, end], l, cl);
  }

  /** Lowering takes exactly one temporary per binary node it reaches and
      two labels per `if` and `loop`, each number once, and every jump it
      emits goes to a label it places. */
  lemma {:induction false} NodeNumbering(n: Node, t: nat, l: nat)
    ensures var r := LowerNode(n, t, l);
      && Numbered(r, t, l)
      && r.temps == t + Binaries(n) && r.labels == l + 2 * Branches(n)
    decreases Size(n), 1
  {
    match n
    case Assign(_, _) => AssignNumbering(n, t, l);
    case BinOp(_, _, _) => BinaryNumbering(n, t, l);
    case Compare(_, _, _) => BinaryNumbering(n, t, l);
    case If(_, _, _) => IfNumbering(n, t, l);
    case Loop(_, _) => LoopNumbering(n, t, l);
    case Log(_, _) => LogNumbering(n, t, l);
    case FuncDef(_, _, _) => FuncDefNumbering(n, t, l);
    case Identifier(_) => Leaf(t, l);
    case Number(_) => Leaf(t, l);
    case LogOp(_, _, _) => Leaf(t, l);
    case Return(_) => Leaf(t, l);
    case FuncCall(_, _) => Leaf(t, l);
  }

  lemma {:induction false} ExpressionNumbering(e: Option<Node>, t: nat, l: nat)
    ensures var r := LowerExpression(e, t, l);
      && Numbered(r, t, l)
      && r.temps == t + OptionBinaries(e) && r.labels == l + 2 * OptionBranches(e)
    decreases OptionSize(e), 2
  {
    if e.Some? {
      NodeNumbering(e.value, t, l);
    } else {
      Leaf(t, l);
    }
  }

  lemma {:induction false} BlockNumbering(ns: seq<Node>, t: nat, l: nat)
    ensures var r := LowerBlock(ns, t, l);
      && Numbered(r, t, l)
      && r.temps == t + BlockBinaries(ns) && r.labels == l + 2 * BlockBranches(ns)
    decreases BlockSize(ns), 3
  {
    if ns == [] {
      Leaf(t, l);
    } else {
      var init := LowerBlock(ns[..|ns| - 1], t, l);
      var last := LowerNode(ns[|ns| - 1], init.temps, init.labels);
      BlockNumbering(ns[..|ns| - 1], t, l);
      NodeNumbering(ns[|ns| - 1], init.temps, init.labels);
      Sequenced(init.code, last.code, t, init.temps, last.temps, l, init.labels, last.labels);
    }
  }

  lemma {:induction false} AssignNumbering(n: Node, t: nat, l: nat)
    requires n.Assign?
    ensures var r := LowerAssign(n, t, l);
      && Numbered(r, t, l)
      && r.temps == t + Binaries(n) && r.labels == l + 2 * Branches(n)
    decreases Size(n), 0
  {
    var v := LowerNode(n.value, t, l);
    var copy := Copy(n.target, Show(v.value));
    NodeNumbering(n.value, t, l);
    Plain(copy, v.temps, v.labels);
    Sequenced(v.code, [copy], t, v.temps, v.temps, l, v.labels, v.labels);
  }

  lemma {:induction false} BinaryNumbering(n: Node, t: nat, l: nat)
    requires n.BinOp? || n.Compare?
    ensures var r := LowerBinary(n, t, l);
      && Numbered(r, t, l)
      && r.temps == t + Binaries(n) && r.labels == l + 2 * Branches(n)
    decreases Size(n), 0
  {
    var lv := LowerNode(n.left, t + 1, l);
    var rv := LowerNode(n.right, lv.temps, lv.labels);
    NodeNumbering(n.left, t + 1, l);
    NodeNumbering(n.right, lv.temps, lv.labels);
    BinaryLayout(lv.code, rv.code, Show(lv.value), n.op, Show(rv.value), t, lv.temps, rv.temps, l, lv.labels, rv.labels);
  }

  lemma {:induction false} IfNumbering(n: Node, t: nat, l: nat)
    requires n.If?
    ensures var r := LowerIf(n, t, l);
      && Numbered(r, t, l)
      && r.temps == t + Binaries(n) && r.labels == l + 2 * Branches(n)
    decreases Size(n), 0
  {
    var cv := LowerNode(n.cond, t, l);
    var tb := LowerBlock(n.thenBlock, cv.temps, cv.labels + 2);
    var eb := LowerBlock(n.elseBlock, tb.temps, tb.labels);
    NodeNumbering(n.cond, t, l);
    BlockNumbering(n.thenBlock, cv.temps, cv.labels + 2);
    BlockNumbering(n.elseBlock, tb.temps, tb.labels);
    IfLayout(cv.code, Show(cv.value), tb.code, eb.code, t, cv.temps, tb.temps, eb.temps, l, cv.labels, tb.labels, eb.labels);
  }

  lemma {:induction false} LoopNumbering(n: Node, t: nat, l: nat)
    requires n.Loop?
    ensures var r := LowerLoop(n, t, l);
      && Numbered(r, t, l)
      && r.temps == t + Binaries(n) && r.labels == l + 2 * Branches(n)
    decreases Size(n), 0
  {
    var bb := LowerBlock(n.body, t, l + 2);
    var cv := LowerNode(n.cond, bb.temps, bb.labels);
    BlockNumbering(n.body, t, l + 2);
    NodeNumbering(n.cond, bb.temps, bb.labels);
    LoopLayout(bb.code, cv.code, Show(cv.value), t, bb.temps, cv.temps, l, bb.labels, cv.labels);
  }

  lemma {:induction false} LogNumbering(n: Node, t: nat, l: nat)
    requires n.Log?
    ensures var r := LowerLog(n, t, l);
      && Numbered(r, t, l)
      && r.temps == t + Binaries(n) && r.labels == l + 2 * Branches(n)
    decreases Size(n), 0
  {
    if n.content.Some? && n.content.value != "" {
      Plain(LogText(n.content.value), t, l);
    } else {
      var v := LowerExpression(n.arg, t, l);
      var log := LogValue(Show(v.value));
      ExpressionNumbering(n.arg, t, l);
      Plain(log, v.temps, v.labels);
      Sequenced(v.code, [log], t, v.temps, v.temps, l, v.labels, v.labels);
    }
  }

  lemma {:induction false} FuncDefNumbering(n: Node, t: nat, l: nat)
    requires n.FuncDef?
    ensures var r := LowerFuncDef(n, t, l);
      && Numbered(r, t, l)
      && r.temps == t + Binaries(n) && r.labels == l + 2 * Branches(n)
    decreases Size(n), 0
  {
    var bb := LowerBlock(n.body, t, l);
    var begin, end := FuncBegin(n.name, n.params), FuncEnd(n.name);
    BlockNumbering(n.body, t, l);
    Plain(begin, t, l);
    Plain(end, bb.temps, bb.labels);
    Sequenced([begin], bb.code, t, t, bb.temps, l, l, bb.labels);
    Sequenced([begin] + bb.code, [end], t, bb.temps, bb.temps, l, bb.labels, bb.labels);
  }

  // What numbering gives a whole program.

  /** Code that introduces each number at most once never introduces the
      same number twice. */
  lemma NeverTwice(code: seq<Instr>, k: Kind, a: nat, b: nat)
    requires Exactly(code, k, a, b)
    ensures forall i, j, x: nat :: 0 <= i < j < |code| && Introduces(code[i], k, x) ==> !Introduces(code[j], k, x)
  {
    forall i, j, x: nat | 0 <= i < j < |code| && Introduces(code[i], k, x)
      ensures !Introduces(code[j], k, x)
    {
      if Introduces(code[j], k, x) {
        CountTwice(code, k, i, j, x);
      }
    }
  }

  /** Code that places every label it jumps to. */
  lemma JumpsPlaced(code: seq<Instr>, l0: nat, l1: nat)
    requires Exactly(code, Labels, l0, l1) && JumpsWithin(code, l0, l1)
    ensures forall i :: 0 <= i < |code| && IsJump(code[i]) ==> exists j :: 0 <= j < |code| && code[j] == Mark(code[i].dest)
  {
    forall i | 0 <= i < |code| && IsJump(code[i])
      ensures exists j :: 0 <= j < |code| && code[j] == Mark(code[i].dest)
    {
      var j := CountWitness(code, Labels, code[i].dest);
      assert code[j] == Mark(code[i].dest);
    }
  }

  /** The code of a whole program (both counters starting at 0, as a new
      generator does) defines the temporaries t1 .. tB, one per binary node
      reached, and places the labels L1 .. L2C, two per `if` and `loop`;
      no temporary is defined twice, no label placed twice, and every
      jump goes to a label that is placed. */
  lemma FreshNames(ast: seq<Node>)
    ensures var r := LowerBlock(ast, 0, 0);
      && r.temps == BlockBinaries(ast) && r.labels == 2 * BlockBranches(ast)
      && (forall x: nat :: Count(r.code, Temporaries, x) == if 1 <= x <= r.temps then 1 else 0)
      && (forall x: nat :: Count(r.code, Labels, x) == if 1 <= x <= r.labels then 1 else 0)
      && (forall i, j :: 0 <= i < j < |r.code| && r.code[i].Compute? && r.code[j].Compute? ==> r.code[i].temp != r.code[j].temp)
      && (forall i, j :: 0 <= i < j < |r.code| && r.code[i].Mark? && r.code[j].Mark? ==> r.code[i].dest != r.code[j].dest)
      && (forall i :: 0 <= i < |r.code| && IsJump(r.code[i]) ==> exists j :: 0 <= j < |r.code| && r.code[j] == Mark(r.code[i].dest))
  {
    var r := LowerBlock(ast, 0, 0);
    BlockNumbering(ast, 0, 0);
    NeverTwice(r.code, Temporaries, 0, r.temps);
    NeverTwice(r.code, Labels, 0, r.labels);
    forall i, j | 0 <= i < j < |r.code| && r.code[i].Compute? && r.code[j].Compute?
      ensures r.code[i].temp != r.code[j].temp
    {
      assert Introduces(r.code[i], Temporaries, r.code[i].temp);
    }
    forall i, j | 0 <= i < j < |r.code| && r.code[i].Mark? && r.code[j].Mark?
      ensures r.code[i].dest != r.code[j].dest
    {
      assert Introduces(r.code[i], Labels, r.code[i].dest);
    }
    JumpsPlaced(r.code, 0, r.labels);
  }

  /** Different numbers make different names. */
  lemma NamesDistinct(a: nat, b: nat)
    ensures a != b ==> TempName(a) != TempName(b) && LabelName(a) != LabelName(b)
  {
    DecimalInjective(a, b);
    if TempName(a) == TempName(b) {
      assert Decimal(a) == TempName(a)[1..];
    }
    if LabelName(a) == LabelName(b) {
      assert Decimal(a) == LabelName(a)[1..];
    }
  }

  /** The end label of a loop, l+2, is placed as its last instruction and
      once only, and no instruction of the loop jumps to it. */
  lemma LoopEndUnused(n: Node, t: nat, l: nat)
    requires n.Loop?
    ensures var code := LowerLoop(n, t, l).code;
      && code[|code| - 1] == Mark(l + 2)
      && Count(code, Labels, l + 2) == 1
      && forall i :: 0 <= i < |code| && IsJump(code[i]) ==> code[i].dest != l + 2
  {
    var bb := LowerBlock(n.body, t, l + 2);
    var cv := LowerNode(n.cond, bb.temps, bb.labels);
    BlockNumbering(n.body, t, l + 2);
    NodeNumbering(n.cond, bb.temps, bb.labels);
    LoopNumbering(n, t, l);
    var start := Mark(l + 1);
    var p := [start] + bb.code + cv.code;
    var code := p + [JumpIf(Show(cv.value), l + 1), Mark(l + 2)];
    JumpsWithinWiden(bb.code, l + 2, bb.labels, l + 2, cv.labels);
    JumpsWithinWiden(cv.code, bb.labels, cv.labels, l + 2, cv.labels);
    JumpsConcat([start], bb.code, l + 2, cv.labels);
    JumpsConcat([start] + bb.code, cv.code, l + 2, cv.labels);
    forall i | 0 <= i < |code| && IsJump(code[i])
      ensures code[i].dest != l + 2
    {
      if i < |p| {
        assert code[i] == p[i];
      }
    }
  }

  /** A binary node's temporary is t+1, taken before those of its
      operands: its instruction comes last, and every other temporary the
      node defines is numbered above it. */
  lemma TempBeforeOperands(n: Node, t: nat, l: nat)
    requires n.BinOp? || n.Compare?
    ensures var r := LowerBinary(n, t, l);
      && r.value == Some(TempName(t + 1))
      && r.code[|r.code| - 1].Compute? && r.code[|r.code| - 1].temp == t + 1
      && forall i :: 0 <= i < |r.code| - 1 && r.code[i].Compute? ==> r.code[i].temp > t + 1
  {
    var lv := LowerNode(n.left, t + 1, l);
    var rv := LowerNode(n.right, lv.temps, lv.labels);
    NodeNumbering(n.left, t + 1, l);
    NodeNumbering(n.right, lv.temps, lv.labels);
    Sequenced(lv.code, rv.code, t + 1, lv.temps, rv.temps, l, lv.labels, rv.labels);
    var operands := lv.code + rv.code;
    var r := LowerBinary(n, t, l);
    forall i | 0 <= i < |r.code| - 1 && r.code[i].Compute?
      ensures r.code[i].temp > t + 1
    {
      assert r.code[i] == operands[i];
      CountMember(operands, Temporaries, i, r.code[i].temp);
    }
  }
}
