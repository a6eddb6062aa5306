/** The abstract syntax tree the parser builds. Each node is one of the
    tagged tuples of parser.py, with the tag as the constructor. */
module Syntax {
  import opened Text

  datatype Node =
    | Assign(target: string, value: Node)
    | If(cond: Node, thenBlock: seq<Node>, elseBlock: seq<Node>)
    | Loop(body: seq<Node>, cond: Node)
      /** A log of a string token (its text, quotes included) or of an
          expression; the other field is None. */
    | Log(content: Option<string>, arg: Option<Node>)
    | FuncDef(name: string, params: seq<string>, body: seq<Node>)
    | FuncCall(name: string, args: seq<Node>)
    | Return(result: Option<Node>)
      /** `+ - * /` */
    | BinOp(op: string, left: Node, right: Node)
      /** `> < == != >= <=` */
    | Compare(op: string, left: Node, right: Node)
      /** `&& ||` */
    | LogOp(op: string, left: Node, right: Node)
    | Identifier(name: string)
    | Number(text: string)

  /** The number of nodes of a tree. */
  function Size(n: Node): (k: nat)
    ensures k > 0
  {
    match n
    case Assign(_, e) => 1 + Size(e)
    case If(c, t, e) => 1 + Size(c) + BlockSize(t) + BlockSize(e)
    case Loop(b, c) => 1 + BlockSize(b) + Size(c)
    case Log(_, e) => 1 + OptionSize(e)
    case FuncDef(_, _, b) => 1 + BlockSize(b)
    case FuncCall(_, args) => 1 + BlockSize(args)
    case Return(e) => 1 + OptionSize(e)
    case BinOp(_, l, r) => 1 + Size(l) + Size(r)
    case Compare(_, l, r) => 1 + Size(l) + Size(r)
    case LogOp(_, l, r) => 1 + Size(l) + Size(r)
    case Identifier(_) => 1
    case Number(_) => 1
  }

  function OptionSize(e: Option<Node>): nat {
    match e
    case Some(x) => Size(x)
    case None => 0
  }

  function BlockSize(ns: seq<Node>): nat
  {
    if ns == [] then 0 else BlockSize(ns[..|ns| - 1]) + Size(ns[|ns| - 1])
  }

  /** A node of a block is no larger than the block. */
  lemma {:induction false} ElementSize(ns: seq<Node>, i: nat)
    requires i < |ns|
    ensures Size(ns[i]) <= BlockSize(ns)
    decreases |ns|
  {
    if i < |ns| - 1 {
      assert ns[..|ns| - 1][i] == ns[i];
      ElementSize(ns[..|ns| - 1], i);
    }
  }
}
