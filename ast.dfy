/** The fragment of Python's expression tree that the pipe rewrite inspects.

    Only the node kinds that `_PipeTransformer` tests with `isinstance` are
    spelled out; every other kind (constants, lambdas, comparisons, boolean
    operators, ...) is an `Other` node whose children the rewrite never enters.
    The tree is a value: a rewrite builds a new tree where the Python code
    assigns to fields of the parsed one. */
module Ast {

  datatype Option<+T> = None | Some(value: T)

  /** The reserved identifier that marks where the piped value goes. */
  const Placeholder: string := "_"

  /** Binary operators. `>>` is `RShift` and `<<` is `LShift`; the two pipes. */
  datatype Operator = RShift | LShift | OtherOp(name: string)
  {
    predicate IsPipe() { RShift? || LShift? }
  }

  /** The three display kinds sharing the `elts` field in Python. */
  datatype DisplayKind = ListDisplay | TupleDisplay | SetDisplay

  /** The four comprehension kinds sharing the `generators` field in Python. */
  datatype ComprehensionKind = ListComp | SetComp | DictComp | GeneratorExp

  datatype Expr =
    | Name(id: string)
    | Starred(value: Expr)
    | Attribute(value: Expr, attr: string)
    | Subscript(value: Expr, slice: Expr)
    | BinOp(left: Expr, op: Operator, right: Expr)
    | Call(func: Expr, args: seq<Expr>, keywords: seq<Keyword>)
    | Display(kind: DisplayKind, elts: seq<Expr>)
      /** A `None` key is a `**mapping` entry. */
    | Dict(keys: seq<Option<Expr>>, values: seq<Expr>)
    | JoinedStr(parts: seq<StrPart>)
      /** `results` holds `elt`, or `key` and `value` for a dict comprehension. */
    | Comprehension(comp: ComprehensionKind, results: seq<Expr>, generators: seq<Generator>)
    | Other(tag: string, children: seq<Expr>)

  /** `name=value`, or `**value` when `arg` is `None`. */
  datatype Keyword = Keyword(arg: Option<string>, value: Expr)

  /** A piece of an f-string: literal text or a `{...}` hole. */
  datatype StrPart = Constant(text: string) | FormattedValue(value: Expr)

  /** `for target in iter if ifs[0] if ifs[1] ...` */
  datatype Generator = Generator(target: Expr, iter: Expr, ifs: seq<Expr>)

  /** A constant, written as its source text: a leaf the rewrite never enters. */
  function Leaf(text: string): Expr
  {
    Other(text, [])
  }

  /** A slot that is itself the placeholder: `_`, `*_` (or `*` around such a slot). */
  predicate DirectSlot(e: Expr)
  {
    match e
    case Name(id) => id == Placeholder
    case Starred(v) => DirectSlot(v)
    case _ => false
  }

  /** `a` has the node kind of `b` and keeps every part of `b` that is not a
      substitution slot: names, operators, display kinds and list lengths. */
  predicate SameShape(a: Expr, b: Expr)
  {
    match b
    case Name(_) => a == b
    case Starred(_) => a.Starred?
    case Attribute(_, attr) => a.Attribute? && a.attr == attr
    case Subscript(_, slice) => a.Subscript? && a.slice == slice
    case BinOp(_, op, _) => a.BinOp? && a.op == op
    case Call(_, args, kws) => a.Call? && |a.args| == |args| && |a.keywords| == |kws|
    case Display(kind, elts) => a.Display? && a.kind == kind && |a.elts| == |elts|
    case Dict(keys, values) => a.Dict? && |a.keys| == |keys| && |a.values| == |values|
    case JoinedStr(parts) => a.JoinedStr? && |a.parts| == |parts|
    case Comprehension(comp, results, gens) =>
      a.Comprehension? && a.comp == comp && a.results == results && |a.generators| == |gens|
    case Other(_, _) => a == b
  }

  /** A pipe operator occurs on the path `visit_BinOp` walks: the root and,
      through every binary operator, its left operand. */
  predicate PipeOnLeftSpine(e: Expr)
  {
    match e
    case BinOp(l, op, _) => op.IsPipe() || PipeOnLeftSpine(l)
    case _ => false
  }
}
