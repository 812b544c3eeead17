/** Pipe expressions, most of them from tests/test.py, and the trees the
    rewrite makes of them. Unless a lemma names a revision, the result is the same for the
    code as written and for the corrected revision. */
module Scenarios {
  import opened Ast
  import opened Substitution
  import opened Chain

  function List(elts: seq<Expr>): Expr { Display(ListDisplay, elts) }
  function Tuple(elts: seq<Expr>): Expr { Display(TupleDisplay, elts) }
  function Apply(f: string, args: seq<Expr>): Expr { Call(Name(f), args, []) }
  function Hole(): Expr { Name(Placeholder) }

  /** `[1, 2, 3] >> sum` is `sum([1, 2, 3])` (tests/test.py:85). */
  lemma ImplicitCall(rev: Revision)
    ensures Visit(rev, BinOp(List([Leaf("1"), Leaf("2"), Leaf("3")]), RShift, Name("sum"))).replacement
         == Apply("sum", [List([Leaf("1"), Leaf("2"), Leaf("3")])])
  {
  }

  /** `4 >> range >> list` is `list(range(4))` (tests/test.py:91). */
  lemma ImplicitCallChain(rev: Revision)
    ensures Visit(rev, BinOp(BinOp(Leaf("4"), RShift, Name("range")), RShift, Name("list"))).replacement
         == Apply("list", [Apply("range", [Leaf("4")])])
  {
  }

  /** `[1, 2, 3] >> sum()` is `sum([1, 2, 3])` (tests/test.py:81). */
  lemma EmptyCallGetsArgument(rev: Revision)
    ensures Visit(rev, BinOp(List([Leaf("1"), Leaf("2"), Leaf("3")]), RShift, Apply("sum", []))).replacement
         == Apply("sum", [List([Leaf("1"), Leaf("2"), Leaf("3")])])
  {
    var value := List([Leaf("1"), Leaf("2"), Leaf("3")]);
    PlainCallGetsArgument(rev, RShift, value, Name("sum"), [], []);
    PipeLinksFoldedLeft(rev, value, RShift, Apply("sum", []));
    assert [value] + [] == [value];
  }

  /** `x << f(1)` appends the value: `f(1, x)` (superpipe/__init__.py:125). */
  lemma LeftShiftAppends(rev: Revision)
    ensures Visit(rev, BinOp(Name("x"), LShift, Apply("f", [Leaf("1")]))).replacement
         == Apply("f", [Leaf("1"), Name("x")])
  {
    assert !HasSiteAtom(rev, Leaf("1"));
    PlainCallGetsArgument(rev, LShift, Name("x"), Name("f"), [Leaf("1")], []);
    PipeLinksFoldedLeft(rev, Name("x"), LShift, Apply("f", [Leaf("1")]));
    assert [Leaf("1")] + [Name("x")] == [Leaf("1"), Name("x")];
  }

  /** `x >> f(1)` prepends the value: `f(x, 1)` (superpipe/__init__.py:125). */
  lemma RightShiftPrepends(rev: Revision)
    ensures Visit(rev, BinOp(Name("x"), RShift, Apply("f", [Leaf("1")]))).replacement
         == Apply("f", [Name("x"), Leaf("1")])
  {
    assert !HasSiteAtom(rev, Leaf("1"));
    PlainCallGetsArgument(rev, RShift, Name("x"), Name("f"), [Leaf("1")], []);
    PipeLinksFoldedLeft(rev, Name("x"), RShift, Apply("f", [Leaf("1")]));
    assert [Name("x")] + [Leaf("1")] == [Name("x"), Leaf("1")];
  }

  /** `xs >> filter(p)` is `filter(xs, p)`: the value goes first
      (superpipe/__init__.py:125), whereas tests/test.py:59 needs `filter(p, xs)`. */
  lemma FilterTakesValueFirst(rev: Revision)
    ensures Visit(rev, BinOp(Name("xs"), RShift, Apply("filter", [Name("p")]))).replacement
         == Apply("filter", [Name("xs"), Name("p")])
  {
    assert !HasSiteAtom(rev, Name("p"));
    PlainCallGetsArgument(rev, RShift, Name("xs"), Name("filter"), [Name("p")], []);
    PipeLinksFoldedLeft(rev, Name("xs"), RShift, Apply("filter", [Name("p")]));
    assert [Name("xs")] + [Name("p")] == [Name("xs"), Name("p")];
  }

  /** `pow(_, 2)` takes the value in place of `_` (tests/test.py:68). */
  lemma ArgumentPlaceholder(rev: Revision)
    ensures Visit(rev, BinOp(Leaf("3"), RShift, Apply("pow", [Hole(), Leaf("2")]))).replacement
         == Apply("pow", [Leaf("3"), Leaf("2")])
  {
    var args := [Hole(), Leaf("2")];
    assert SubstAtom(rev, Leaf("3"), args[0]).found;
    assert SubstEach(rev, Leaf("3"), args) == [Leaf("3"), Leaf("2")];
  }

  /** `3 >> (1, 2, _, 4, 5)` is `(1, 2, 3, 4, 5)` (tests/test.py:131). */
  lemma TupleSlot(rev: Revision)
    ensures Visit(rev, BinOp(Leaf("3"), RShift, Tuple([Leaf("1"), Leaf("2"), Hole(), Leaf("4"), Leaf("5")])))
              .replacement
         == Tuple([Leaf("1"), Leaf("2"), Leaf("3"), Leaf("4"), Leaf("5")])
  {
    var elts := [Leaf("1"), Leaf("2"), Hole(), Leaf("4"), Leaf("5")];
    assert SubstEach(rev, Leaf("3"), elts) == [Leaf("1"), Leaf("2"), Leaf("3"), Leaf("4"), Leaf("5")];
  }

  /** `t >> (1, *_, 5)` is `(1, *t, 5)` (tests/test.py:132). */
  lemma StarredSlot(rev: Revision)
    ensures Visit(rev, BinOp(Name("t"), RShift, Tuple([Leaf("1"), Starred(Hole()), Leaf("5")]))).replacement
         == Tuple([Leaf("1"), Starred(Name("t")), Leaf("5")])
  {
    var elts := [Leaf("1"), Starred(Hole()), Leaf("5")];
    assert SubstEach(rev, Name("t"), elts) == [Leaf("1"), Starred(Name("t")), Leaf("5")];
  }

  /** `[2, 3] >> [[_]]` is `[[[2, 3]]]`: nested displays are entered
      (tests/test.py:155). */
  lemma NestedDisplay(rev: Revision)
    ensures Visit(rev, BinOp(List([Leaf("2"), Leaf("3")]), RShift, List([List([Hole()])]))).replacement
         == List([List([List([Leaf("2"), Leaf("3")])])])
  {
    var value := List([Leaf("2"), Leaf("3")]);
    assert SubstEach(rev, value, [Hole()]) == [value];
    assert SubstAtom(rev, value, List([Hole()])).tree == List([value]);
    assert SubstEach(rev, value, [List([Hole()])]) == [List([value])];
  }

  /** `x >> [a >> f]` is `[a >> f]`: the right operand of a pipe is not
      visited, so a pipe inside it is not folded. */
  lemma NestedPipeNotFolded(rev: Revision)
    ensures Visit(rev, BinOp(Name("x"), RShift, List([BinOp(Name("a"), RShift, Name("f"))]))).replacement
         == List([BinOp(Name("a"), RShift, Name("f"))])
  {
    var r := List([BinOp(Name("a"), RShift, Name("f"))]);
    assert !HasSiteAtom(rev, r.elts[0]);
    RightOperandNotVisited(rev, Name("x"), RShift, r);
  }

  /** `r >> [x*x for x in _]` iterates over `r` (tests/test.py:107). */
  lemma ComprehensionIterable(rev: Revision, target: Expr, result: Expr)
    ensures Visit(rev, BinOp(Name("r"), RShift, Comprehension(ListComp, [result], [Generator(target, Hole(), [])])))
              .replacement
         == Comprehension(ListComp, [result], [Generator(target, Name("r"), [])])
  {
    var gens := [Generator(target, Hole(), [])];
    assert SubstIters(rev, Name("r"), gens) == [Generator(target, Name("r"), [])];
  }

  /** `5 >> _*5 >> [_, 2] >> sum` is `sum([5*5, 2])` (tests/test.py:37). */
  lemma ThreeLinkChain(rev: Revision)
    ensures Visit(rev, BinOp(BinOp(BinOp(Leaf("5"), RShift, BinOp(Hole(), OtherOp("*"), Leaf("5"))),
                                   RShift, List([Hole(), Leaf("2")])),
                             RShift, Name("sum"))).replacement
         == Apply("sum", [List([BinOp(Leaf("5"), OtherOp("*"), Leaf("5")), Leaf("2")])])
  {
    var product := BinOp(Leaf("5"), OtherOp("*"), Leaf("5"));
    var first := BinOp(Leaf("5"), RShift, BinOp(Hole(), OtherOp("*"), Leaf("5")));
    assert Visit(rev, first).replacement == product;
    assert SubstEach(rev, product, [Hole(), Leaf("2")]) == [product, Leaf("2")];
    var pair := List([product, Leaf("2")]);
    var second := BinOp(first, RShift, List([Hole(), Leaf("2")]));
    assert Visit(rev, second).replacement == pair;
    UnhandledOtherIsCalled(rev, RShift, pair, Name("sum"));
    PipeLinksFoldedLeft(rev, second, RShift, Name("sum"));
  }

  /** `[1, 2] >> sum >> _.bit_length()` is `sum([1, 2]).bit_length()`: the
      receiver `_` takes the value (tests/test.py:45). */
  lemma ReceiverPlaceholder(rev: Revision)
    ensures Visit(rev, BinOp(BinOp(List([Leaf("1"), Leaf("2")]), RShift, Name("sum")),
                             RShift, Call(Attribute(Hole(), "bit_length"), [], []))).replacement
         == Call(Attribute(Apply("sum", [List([Leaf("1"), Leaf("2")])]), "bit_length"), [], [])
  {
    assert HasSiteAtom(rev, Hole());
  }
}
