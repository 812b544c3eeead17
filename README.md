# superpipe: the pipe rewrite of `_PipeTransformer`

superpipe lets Python code be written as Elixir-style pipes. Inside a
function or class decorated with `@pipes`, `value >> f` means `f(value)` and
`value >> f(a)` means `f(value, a)`. `value << f(a)` means `f(a, value)`. A
placeholder `_` (or `*_`) marks where the value goes instead, as in
`value >> g(1, _)` or `value >> [_, 2]`. The decorator parses the source,
rewrites each pipe expression with `_PipeTransformer` and recompiles the
result. This project models that rewrite.

- **Tree** (`ast.dfy`, module `Ast`). The rewrite looks at a fragment of
  Python's expression tree, and `Expr` holds it: names, starred
  expressions, attribute and subscript accesses, binary operators, calls
  with their keywords, list/tuple/set displays, dictionary displays,
  f-strings and the four comprehension kinds. Every other node is an
  `Other` leaf, which the rewrite never enters.
- **Substitution** (`substitution.dfy`, module `Substitution`).
  `handle_atom` and `handle_node` become the functions `SubstAtom` and
  `SubstNode`. Each returns the rewritten tree and the Python method's
  flag: "a slot was the placeholder" for `handle_atom`, and "this pipe link
  is handled" for `handle_node`. Lemmas say which slots each node kind
  exposes and when a link counts as handled. They also show that nothing
  without a reachable placeholder changes, and that substituting `_` for
  itself changes nothing.
- **Chain** (`chain.dfy`, module `Chain`). `visit_BinOp` becomes `Visit`,
  which folds a chain `a >> b >> c` from the left. `Link` handles one link
  and decides whether the right-hand side is:
  - kept as rewritten,
  - given the value as an extra positional argument (first for `>>`, last
    for `<<`), or
  - wrapped as a call.
- **Transformer** (`transformer.dfy`, module `Transformer`). These are the
  same operations as methods with the loops of the Python code, each
  proved to compute exactly the function above.
- **Findings** (`findings.dfy`) and **Scenarios** (`scenarios.dfy`).
  Findings exhibits the three discrepancies below and proves the repaired
  behaviour. Scenarios gives the trees produced for concrete pipe
  expressions, most of them taken from `tests/test.py`; two illustrate the
  insertion rule of superpipe/__init__.py:125 directly, and one that the
  right operand of a pipe is not visited (line 115).

The Python code assigns the rewritten children into the parsed nodes. Here
the tree is a value, and a rewrite builds a new tree.

One in-place effect is observable, and the model keeps it. `visit_BinOp`
returns a non-pipe operator node as it was (line 139), but that node's left
operand may already have been edited in place by the visit (the argument
insertion of line 125). `Visit` therefore returns a `Visited` pair: the
replacement Python returns, and the visited node as those in-place edits
leave it.

Every rewrite function (`SubstAtom`, `SubstNode` and their helpers, `Link`,
`Visit`) and every method of `Transformer` is parameterised by a `Revision`. `AsWritten` is the code as
it stands. `Corrected` repairs the three findings.

Where the package's tests expect something other than what the code does,
the model follows the code:

- A bare placeholder on the right of a pipe is not a slot, so `v >> _`
  becomes the call `_(v)`, not `v` (`Chain.BarePlaceholderIsCalled`,
  `Chain.ThreadedNestsCalls`), whereas tests/test_decorator.py:18 expects
  `5 >> _ == 5`.
- Argument position: for `>>` into a call without a placeholder, the code
  inserts the value first (superpipe/__init__.py:124-125, its comment says
  the same). tests/test.py:59-60 (`>> filter(lambda ...)`,
  `>> map(lambda ...)`) and tests/test.py:79 (`2 >> Utils.div(1) == 0.5`)
  need it last. Neither revision changes the position
  (`Scenarios.FilterTakesValueFirst`, `Findings.DivOneDropsValue`, `Findings.CorrectedDivOneTakesValueFirst`).
- The attribute-call rule is the code's, `AsWritten`. The rule "the
  receiver takes the value only if it holds a placeholder" is the
  `Corrected` revision.

## Model

| member | source | states |
|---|---|---|
| Substitution.SubstAtom | superpipe/__init__.py:34-47 | a slot `_` becomes the piped value and reports true; the slot reports true exactly when it is `_` or a star around such a slot; any other slot keeps its kind, names and list lengths; a star is rewritten by rewriting its operand (so `*_` becomes `*value`) |
| Substitution.SubstNode | superpipe/__init__.py:50-109 | the node keeps its kind and shape; attribute, subscript, binary-operator, display, f-string and comprehension nodes always report handled; names, stars, other nodes (and, as written, dictionary displays) come back unchanged and unhandled |
| Substitution.DirectSlotIsSite | superpipe/__init__.py:39-44 | a slot that is `_` or `*_` is a reachable placeholder |
| Substitution.UnreachedAtomUnchanged | superpipe/__init__.py:34-47 | a slot with no reachable placeholder comes back identical and reports false |
| Substitution.UnreachedNodeUnchanged | superpipe/__init__.py:50-109 | a node with no reachable placeholder is not rewritten |
| Substitution.UnreachedEachUnchanged | superpipe/__init__.py:79-82 | an argument list with no reachable placeholder is unchanged and its accumulated flag is false |
| Substitution.ReachedAtomChanged | superpipe/__init__.py:34-47 | for a value other than `_`, a slot holding a reachable placeholder is changed |
| Substitution.ReachedNodeChanged | superpipe/__init__.py:50-109 | for a value other than `_`, a node holding a reachable placeholder is rewritten |
| Substitution.SlotChangedIffReached | superpipe/__init__.py:34-109 | for a value other than `_`, a slot is changed if and only if it holds a placeholder the visitor reaches |
| Substitution.SelfSubstAtom | superpipe/__init__.py:34-47 | substituting `_` for `_` leaves any slot as it was: only placeholder slots are ever changed |
| Substitution.SelfSubstNode | superpipe/__init__.py:50-109 | substituting `_` for `_` leaves any node as it was |
| Substitution.SelfSubstEach | superpipe/__init__.py:79-82 | substituting `_` for `_` leaves any argument list as it was |
| Substitution.BaseIsTheOnlySlot | superpipe/__init__.py:58-61 | for `x.attr` and `x[i]` only the base is substituted (a base `_` becomes the value), the attribute name or index is kept, and the link is handled |
| Substitution.OperandsAreSlots | superpipe/__init__.py:63-68 | both operands of a binary operator are substituted independently (an operand `_` becomes the value), the operator is kept, and the link is handled |
| Substitution.MethodCallVisitsReceiverOnly | superpipe/__init__.py:72-75 | as written, a call on an attribute substitutes only the receiver (a receiver `_` becomes the value), leaves the arguments and keywords unchanged and reports handled |
| Substitution.CallHandledIffDirectSlot | superpipe/__init__.py:77-87 | any other call keeps its callee, substitutes every positional slot in order (an argument `_` becomes the value), keeps the keywords as written, and is handled if and only if some slot is `_` or `*_` |
| Substitution.CollectionSlotsRewritten | superpipe/__init__.py:89-107 | display elements (an element `_` becomes the value), f-string holes and comprehension iterables are substituted element by element; literal text, comprehension results and targets are kept |
| Chain.InsertionPrependsOrAppends | superpipe/__init__.py:125 | inserting at the index chosen by the operator puts the value before all arguments for `>>` and after all of them for `<<`, the others kept in order |
| Chain.InsertAt | superpipe/__init__.py:125 | list insertion: one element longer, the new element at the index, the elements before and after it kept in order |
| Chain.Link | superpipe/__init__.py:116-137 | a handled link's result keeps the right side's kind and shape and is also what is left in place; an unhandled link never drops the value: the result is a call with the value as one more positional argument (one argument more than the call had, or the only argument of the wrapped right side) |
| Chain.Visit | superpipe/__init__.py:111-139 | an expression with no pipe on the path the visitor walks comes back exactly as it was |
| Chain.HandledLinkIsRightSide | superpipe/__init__.py:118-119 | a handled link is replaced by the rewritten right-hand side, of the same kind and shape; for a value other than `_` it equals the right side exactly when the right side holds no reachable placeholder |
| Chain.UnhandledCallGetsArgument | superpipe/__init__.py:122-126 | an unhandled call gets the folded value prepended (`>>`) or appended (`<<`) to its arguments, with callee and keywords kept, and that edit is also visible in place |
| Chain.UnhandledOtherIsCalled | superpipe/__init__.py:128-137 | an unhandled right-hand side that is not a call is wrapped as a call with the value as its only argument |
| Chain.AlwaysHandledKindIsKept | superpipe/__init__.py:58-107 | a display, accessor, operator, f-string or comprehension without a placeholder comes back exactly: neither called nor given an argument |
| Chain.PlainCallGetsArgument | superpipe/__init__.py:77-87 | a call with no placeholder gets the value as first (`>>`) or last (`<<`) argument, and nothing else changes |
| Chain.RightOperandNotVisited | superpipe/__init__.py:115-119 | only the left operand of a pipe is visited; a right operand of an always-handled kind without a placeholder comes back exactly, so pipes inside it (`x >> [a >> f]`) are not folded |
| Chain.PipeUnderOtherOperatorStays | superpipe/__init__.py:115-139 | `(a >> f(...)) op r` keeps the shift in the tree, with `a` inserted into `f`'s arguments by the in-place edit |
| Chain.BarePlaceholderIsCalled | superpipe/__init__.py:109 | a bare `_` on the right of a pipe is not substituted; it is called with the value |
| Chain.ThreadedNestsCalls | superpipe/__init__.py:111-139 | threading a value through `n` placeholder-only pipes yields `n` nested calls of `_` |
| Transformer.HandleAtom | superpipe/__init__.py:34-47 | the method returns the same tree and flag as `SubstAtom` |
| Transformer.HandleNode | superpipe/__init__.py:50-109 | the method returns the same tree and flag as `SubstNode` |
| Transformer.HandleCall | superpipe/__init__.py:70-87 | the call branch returns the same tree and flag as `SubstNode` on a call |
| Transformer.HandleSlots | superpipe/__init__.py:79-82 | the loop substitutes every argument in order and or-s the flags, as `SubstEach` and `AnyFound` |
| Transformer.HandleKeywords | superpipe/__init__.py:79-82 | the same loop over the keywords, as `SubstKeywords` and `AnyKeywordFound` |
| Transformer.HandleKeyword | superpipe/__init__.py:81 | one keyword slot, as `SubstKeyword` |
| Transformer.HandleParts | superpipe/__init__.py:96-99 | the loop over f-string pieces substitutes holes only, as `SubstParts` |
| Transformer.HandlePart | superpipe/__init__.py:98-99 | one f-string hole, as `SubstPart` |
| Transformer.HandleIters | superpipe/__init__.py:104-106 | the loop over generators substitutes each iterable, as `SubstIters` |
| Transformer.HandleKeys | superpipe/__init__.py:89-109 | dictionary keys (corrected revision), as `SubstKeys` |
| Transformer.HandleKey | superpipe/__init__.py:89-109 | one dictionary key, as `SubstKey` |
| Transformer.Visit | superpipe/__init__.py:115 | visiting dispatches binary operators to `VisitBinOp` and returns other nodes unchanged, as `Chain.Visit` |
| Transformer.VisitBinOp | superpipe/__init__.py:111-139 | the method returns the replacement and in-place tree of `Chain.Visit` |
| Findings.MethodCallDropsValue | superpipe/__init__.py:73-75 | as written, `5 >> Utils.add2(1)` yields `Utils.add2(1)`, dropping the value |
| Findings.MethodCallKeepsArgumentPlaceholder | superpipe/__init__.py:73-75 | as written, `5 >> Utils.div(_, 1)` keeps `_` as an argument |
| Findings.CorrectedMethodCallTakesValue | superpipe/__init__.py:70-87 | corrected, a method call with no placeholder gets the value as first (`>>`) or last (`<<`) argument |
| Findings.CorrectedMethodCallScansArguments | superpipe/__init__.py:77-87 | corrected, a method call whose receiver has no placeholder substitutes its arguments and is handled iff one is `_` or `*_` |
| Findings.CorrectedReceiverStillFirst | superpipe/__init__.py:73-75 | corrected, a call whose receiver holds a placeholder is handled and not given the value: the receiver alone is substituted (a `_` receiver becomes the value, and any value other than `_` changes it), the method name, arguments and keywords are kept as written |
| Findings.CorrectedAddTest | tests/test.py:75 | corrected, `5 >> Utils.add2(1)` yields `Utils.add2(5, 1)` |
| Findings.CorrectedDivTest | tests/test.py:95 | corrected, `5 >> Utils.div(_, 1)` yields `Utils.div(5, 1)` |
| Findings.DivOneDropsValue | tests/test.py:79 | as written, `2 >> Utils.div(1)` is `Utils.div(1)`; the test needs `Utils.div(1, 2)` |
| Findings.CorrectedDivOneTakesValueFirst | tests/test.py:79 | corrected, `2 >> Utils.div(1)` is `Utils.div(2, 1)`; the test needs `Utils.div(1, 2)` |
| Findings.KeywordPlaceholderIgnored | superpipe/__init__.py:79-82 | as written, `d >> foo(**_)` yields `foo(d, **_)` |
| Findings.CorrectedKeywordValuesAreSlots | superpipe/__init__.py:79-82 | corrected, in a plain call or a method call whose receiver holds no placeholder, every keyword value is a slot, keyword names are kept, and a `_` value makes the link handled |
| Findings.CorrectedKeywordTest | tests/test.py:102 | corrected, `d >> foo(**_)` yields `foo(**d)` |
| Findings.DictIsCalled | superpipe/__init__.py:109 | as written, every dictionary display on the right of a pipe is called with the value |
| Findings.CorrectedDictSlots | superpipe/__init__.py:89-93 | corrected, dictionary keys and values are slots, rewritten element by element, and the display is never called |
| Findings.CorrectedDictTests | tests/test.py:149-150 | corrected, `0 >> {'a': _}` and `'a' >> {_: 0}` yield `{'a': 0}` |
| Scenarios.ImplicitCall | tests/test.py:85 | `[1, 2, 3] >> sum` is `sum([1, 2, 3])` |
| Scenarios.ImplicitCallChain | tests/test.py:91 | `4 >> range >> list` is `list(range(4))` |
| Scenarios.EmptyCallGetsArgument | tests/test.py:81 | `[1, 2, 3] >> sum()` is `sum([1, 2, 3])` |
| Scenarios.LeftShiftAppends | superpipe/__init__.py:125 | `x << f(1)` is `f(1, x)` |
| Scenarios.RightShiftPrepends | superpipe/__init__.py:125 | `x >> f(1)` is `f(x, 1)` |
| Scenarios.FilterTakesValueFirst | tests/test.py:59 | `xs >> filter(p)` is `filter(xs, p)` in both revisions; the test needs `filter(p, xs)` |
| Scenarios.ArgumentPlaceholder | tests/test.py:68 | `3 >> pow(_, 2)` is `pow(3, 2)` |
| Scenarios.TupleSlot | tests/test.py:131 | `3 >> (1, 2, _, 4, 5)` is `(1, 2, 3, 4, 5)` |
| Scenarios.StarredSlot | tests/test.py:132 | `t >> (1, *_, 5)` is `(1, *t, 5)` |
| Scenarios.NestedDisplay | tests/test.py:155 | `[2, 3] >> [[_]]` is `[[[2, 3]]]` |
| Scenarios.NestedPipeNotFolded | superpipe/__init__.py:115 | `x >> [a >> f]` is `[a >> f]`: the pipe inside the right operand is not folded |
| Scenarios.ComprehensionIterable | tests/test.py:107 | `r >> [x*x for x in _]` iterates over `r` |
| Scenarios.ThreeLinkChain | tests/test.py:37 | `5 >> _*5 >> [_, 2] >> sum` is `sum([5*5, 2])` |
| Scenarios.ReceiverPlaceholder | tests/test.py:45 | `[1, 2] >> sum >> _.bit_length()` is `sum([1, 2]).bit_length()` |

## Left out

- The `pipes` decorator (superpipe/__init__.py:143-194) is not modelled:
  reading source text, parsing, adjusting line and column numbers,
  removing the decorator, compiling and `exec`. It is I/O and calls into
  the Python runtime, and the rewrite is modelled on already parsed trees.
- Source positions (`lineno`, `col_offset`) of the wrapping call
  (lines 135-136) are not modelled: the tree has no positions.
- Descent of `NodeTransformer.visit` into the children of nodes that are
  not binary operators (statements, call arguments, lambdas, ...) is not
  modelled; `Visit` returns such nodes unchanged. A pipe is modelled where
  it is the expression visited or the left operand of one.
- Aliasing is not captured: Python inserts the same left node object into
  every slot, and edits nodes in place. Here each slot receives an equal
  value. Only the in-place effect visible through line 139 is kept (see
  `Visited`).
- Evaluation of the rewritten code (the values the tests compare) is not
  modelled; the scenarios state the rewritten trees instead.
- Other node kinds are leaves: the substitution never enters them, as in
  the code (line 109).
- tests/newtest.py holds an earlier copy of the transformer and
  tests/test_decorator.py tests the decorator; neither is part of this
  model.

## Findings

| source | as written | input that shows it | evidently intended | confidence | as-written member | corrected member |
|---|---|---|---|---|---|---|
| superpipe/__init__.py:73-75 | a call whose callee is an attribute always reports handled after substituting only the receiver | `5 >> Utils.add2(1)` gives `Utils.add2(1)`; `5 >> Utils.div(_, 1)` keeps `_` (tests/test.py:75, 95 expect `Utils.add2(5, 1)` and `Utils.div(5, 1)`); `2 >> Utils.div(1)` gives `Utils.div(1)` (tests/test.py:79) | the receiver takes precedence only when it holds a placeholder; otherwise the call is treated like any other. The corrected revision still gives `Utils.div(2, 1)` for tests/test.py:79, which needs the value last (see argument position above) | not executed | Findings.MethodCallDropsValue | Findings.CorrectedMethodCallTakesValue |
| superpipe/__init__.py:79-82 | `handle_atom` is given the `keyword` node itself, which is neither a name nor a star, so keyword values are never substituted | `d >> foo(**_)` gives `foo(d, **_)` (tests/test.py:102 expects `foo(**d)`) | each keyword's value is a slot | not executed | Findings.KeywordPlaceholderIgnored | Findings.CorrectedKeywordValuesAreSlots |
| superpipe/__init__.py:89-109 | dictionary displays are not among the handled kinds, so they fall through to "not handled" | `0 >> {'a': _}` gives `{'a': _}(0)` (tests/test.py:149 expects `{'a': 0}`) | keys and values of a dictionary display are slots, like display elements | not executed | Findings.DictIsCalled | Findings.CorrectedDictSlots |
