/** The chain reduction of `_PipeTransformer.visit_BinOp`
    (superpipe/__init__.py:111-139) as functions on trees. */
module Chain {
  import opened Ast
  import opened Substitution

  /** What visiting a node yields: the tree that takes its place, and the node
      itself as the in-place edits of the visit leave it. Python returns only
      the first, but a caller that keeps the original node (line 139) sees the
      second. */
  datatype Visited = Visited(replacement: Expr, inPlace: Expr)

  /** Where `right.args.insert` puts the piped value: first for `>>`, last for `<<`. */
  function InsertionIndex(op: Operator, n: nat): (k: nat)
    ensures k <= n
    ensures op == RShift ==> k == 0
    ensures op != RShift ==> k == n
  {
    if op == RShift then 0 else n
  }

  /** Python's `xs.insert(k, x)` for `0 <= k <= len(xs)`. */
  function InsertAt(xs: seq<Expr>, k: nat, x: Expr): (ys: seq<Expr>)
    requires k <= |xs|
    ensures |ys| == |xs| + 1 && ys[k] == x
    ensures ys[..k] == xs[..k] && ys[k + 1..] == xs[k..]
  {
    xs[..k] + [x] + xs[k..]
  }

  /** Inserting at `InsertionIndex` prepends the value for `>>` and appends
      it for `<<`: every argument the call had keeps its relative order. */
  lemma InsertionPrependsOrAppends(op: Operator, xs: seq<Expr>, x: Expr)
    ensures InsertAt(xs, InsertionIndex(op, |xs|), x) == if op == RShift then [x] + xs else xs + [x]
  {
    if op == RShift {
      assert xs[0..] == xs;
    } else {
      assert xs[..|xs|] == xs;
    }
  }

  /** One link `left op right`, `left` already folded (lines 118-137). A link
      the substitution does not handle never drops the value: the result is
      a call that takes it as one more positional argument. */
  function Link(rev: Revision, op: Operator, left: Expr, right: Expr): (v: Visited)
    ensures SubstNode(rev, left, right).found ==> v.replacement == v.inPlace && SameShape(v.replacement, right)
    ensures !SubstNode(rev, left, right).found ==>
              && v.replacement.Call? && left in v.replacement.args
              && |v.replacement.args| == (if right.Call? then |right.args| + 1 else 1)
  {
    var s := SubstNode(rev, left, right);
    if s.found then Visited(s.tree, s.tree)
    else if s.tree.Call? then
      var called := s.tree.(args := InsertAt(s.tree.args, InsertionIndex(op, |s.tree.args|), left));
      Visited(called, called)
    else Visited(Call(s.tree, [left], []), s.tree)
  }

  /** `self.visit(e)` as far as this pass is concerned: a binary operator goes
      through `visit_BinOp`; any other node is taken as it is. */
  function Visit(rev: Revision, e: Expr): (v: Visited)
    ensures !PipeOnLeftSpine(e) ==> v == Visited(e, e)
  {
    match e
    case BinOp(l, op, r) =>
      var lv := Visit(rev, l);
      if op.IsPipe() then
        var link := Link(rev, op, lv.replacement, r);
        Visited(link.replacement, BinOp(lv.inPlace, op, link.inPlace))
      else
        var kept := BinOp(lv.inPlace, op, r);
        Visited(kept, kept)
    case _ => Visited(e, e)
  }

  // ---------------------------------------------------------------------
  // One link

  /** A link whose substitution reports handled is replaced by the rewritten
      right-hand side itself: it keeps the right side's kind and shape, and for
      a value other than `_` it differs from the right side exactly when a
      placeholder in it was reached. */
  lemma HandledLinkIsRightSide(rev: Revision, op: Operator, left: Expr, right: Expr)
    requires SubstNode(rev, left, right).found
    ensures Link(rev, op, left, right).replacement == SubstNode(rev, left, right).tree
    ensures SameShape(Link(rev, op, left, right).replacement, right)
    ensures left != Name(Placeholder) ==>
              (Link(rev, op, left, right).replacement == right <==> !HasSiteNode(rev, right))
  {
    if HasSiteNode(rev, right) {
      if left != Name(Placeholder) {
        ReachedNodeChanged(rev, left, right);
      }
    } else {
      UnreachedNodeUnchanged(rev, left, right);
    }
  }

  /** Not handled, right-hand side a call: the folded left value joins the
      positional arguments, first for `>>` and last for `<<`; callee, keywords
      and the other arguments, in their order, are those the substitution left. */
  lemma UnhandledCallGetsArgument(rev: Revision, op: Operator, left: Expr, right: Expr)
    requires right.Call? && !SubstNode(rev, left, right).found
    ensures var s := SubstNode(rev, left, right).tree;
      var r := Link(rev, op, left, right).replacement;
      && r.Call? && r.func == s.func && r.keywords == s.keywords
      && |r.args| == |right.args| + 1
      && (op == RShift ==> r.args == [left] + s.args)
      && (op != RShift ==> r.args == s.args + [left])
      && Link(rev, op, left, right).inPlace == r
  {
    var s := SubstNode(rev, left, right).tree;
    var r := Link(rev, op, left, right).replacement;
    assert s.Call?;
    assert r == s.(args := InsertAt(s.args, InsertionIndex(op, |s.args|), left));
    if op == RShift {
      assert r.args == [left] + s.args[0..];
    } else {
      assert r.args == s.args[..|s.args|] + [left];
    }
  }

  /** Not handled, right-hand side not a call: it is wrapped, untouched, as
      `right(left)`. */
  lemma UnhandledOtherIsCalled(rev: Revision, op: Operator, left: Expr, right: Expr)
    requires !right.Call? && !SubstNode(rev, left, right).found
    ensures Link(rev, op, left, right).replacement == Call(right, [left], [])
  {
  }

  /** A right-hand side of a kind that is always handled and that holds no
      placeholder comes back exactly: it is neither called nor given an
      argument (`x >> [1, 2, 3]` stays `[1, 2, 3]`). */
  lemma AlwaysHandledKindIsKept(rev: Revision, op: Operator, left: Expr, right: Expr)
    requires right.Attribute? || right.Subscript? || right.BinOp? || right.Display?
             || right.JoinedStr? || right.Comprehension?
    requires !HasSiteNode(rev, right)
    ensures Link(rev, op, left, right).replacement == right
  {
    UnreachedNodeUnchanged(rev, left, right);
  }

  /** A call on a plain callee with no placeholder anywhere in it: `>>`
      prepends and `<<` appends the piped value and nothing else changes. */
  lemma PlainCallGetsArgument(rev: Revision, op: Operator, left: Expr, f: Expr, args: seq<Expr>, kws: seq<Keyword>)
    requires !(f.Attribute? && ReceiverFirst(rev, f.value))
    requires !HasSiteNode(rev, Call(f, args, kws))
    ensures op == RShift ==> Link(rev, op, left, Call(f, args, kws)).replacement == Call(f, [left] + args, kws)
    ensures op != RShift ==> Link(rev, op, left, Call(f, args, kws)).replacement == Call(f, args + [left], kws)
    ensures Link(rev, op, left, Call(f, args, kws)).inPlace == Link(rev, op, left, Call(f, args, kws)).replacement
  {
    var right := Call(f, args, kws);
    UnreachedNodeUnchanged(rev, left, right);
    UnreachedEachUnchanged(rev, left, args);
    if rev == Corrected {
      forall i | 0 <= i < |kws| ensures !SubstKeyword(rev, left, kws[i]).found {
        UnreachedKeywordUnchanged(rev, left, kws[i]);
      }
    }
    UnhandledCallGetsArgument(rev, op, left, right);
  }

  // ---------------------------------------------------------------------
  // Whole chains

  /** The pipe branch of `Visit`: the folded left value linked with `r`. */
  lemma PipeLinksFoldedLeft(rev: Revision, l: Expr, op: Operator, r: Expr)
    requires op.IsPipe()
    ensures Visit(rev, BinOp(l, op, r)).replacement
         == Link(rev, op, Visit(rev, l).replacement, r).replacement
  {
  }

  /** Only the left operand is visited: the right operand of a pipe reaches
      the result only through the substitution, so pipes inside it stay. A
      right operand of an always-handled kind with no placeholder comes back
      exactly, whatever pipes it holds: `x >> [a >> f]` is `[a >> f]`, and
      `x >> (a >> f)` is `a >> f`. */
  lemma RightOperandNotVisited(rev: Revision, l: Expr, op: Operator, r: Expr)
    requires op.IsPipe()
    ensures Visit(rev, BinOp(l, op, r)).replacement
         == Link(rev, op, Visit(rev, l).replacement, r).replacement
    ensures (r.Attribute? || r.Subscript? || r.BinOp? || r.Display? || r.JoinedStr? || r.Comprehension?)
            && !HasSiteNode(rev, r)
            ==> Visit(rev, BinOp(l, op, r)).replacement == r
  {
    if (r.Attribute? || r.Subscript? || r.BinOp? || r.Display? || r.JoinedStr? || r.Comprehension?)
       && !HasSiteNode(rev, r) {
      PipeLinksFoldedLeft(rev, l, op, r);
      AlwaysHandledKindIsKept(rev, op, Visit(rev, l).replacement, r);
    }
  }

  /** A pipe nested as the left operand of another operator is folded, but
      the outer node is returned as it was: the shift stays in the tree, and
      its right-hand call now carries the piped value from the in-place insert. */
  lemma PipeUnderOtherOperatorStays(rev: Revision, a: Expr, f: Expr, args: seq<Expr>, kws: seq<Keyword>,
                                    op: Operator, r: Expr)
    requires !op.IsPipe() && !PipeOnLeftSpine(a)
    requires !(f.Attribute? && ReceiverFirst(rev, f.value))
    requires !HasSiteNode(rev, Call(f, args, kws))
    ensures Visit(rev, BinOp(BinOp(a, RShift, Call(f, args, kws)), op, r)).replacement
         == BinOp(BinOp(a, RShift, Call(f, [a] + args, kws)), op, r)
  {
    var call := Call(f, args, kws);
    var inner := BinOp(a, RShift, call);
    PlainCallGetsArgument(rev, RShift, a, f, args, kws);
    var link := Link(rev, RShift, a, call);
    assert link.inPlace == Call(f, [a] + args, kws);
    assert Visit(rev, a) == Visited(a, a);
    assert Visit(rev, inner).inPlace == BinOp(a, RShift, link.inPlace);
    assert Visit(rev, BinOp(inner, op, r)).replacement == BinOp(Visit(rev, inner).inPlace, op, r);
  }

  /** `v >> _ >> _ ... << _`: the value threaded through `links` pipes whose
      right-hand side is the bare placeholder. */
  function Threaded(v: Expr, links: seq<Operator>): Expr
  {
    if links == [] then v
    else BinOp(Threaded(v, links[..|links| - 1]), links[|links| - 1], Name(Placeholder))
  }

  /** `x` passed `n` times to a function named `_`. */
  function CalledPlaceholder(x: Expr, n: nat): Expr
  {
    if n == 0 then x else Call(Name(Placeholder), [CalledPlaceholder(x, n - 1)], [])
  }

  /** A bare `_` on the right of a pipe is not a slot: `handle_node` knows no
      `Name`, so the link is not handled and `_` is called with the value. */
  lemma BarePlaceholderIsCalled(rev: Revision, op: Operator, left: Expr)
    ensures Link(rev, op, left, Name(Placeholder)).replacement == Call(Name(Placeholder), [left], [])
  {
  }

  /** Hence threading a value through placeholder-only pipes nests calls of
      `_` rather than giving the value back. */
  lemma {:induction false} ThreadedNestsCalls(rev: Revision, v: Expr, links: seq<Operator>)
    requires forall i | 0 <= i < |links| :: links[i].IsPipe()
    ensures Visit(rev, Threaded(v, links)).replacement
         == CalledPlaceholder(Visit(rev, v).replacement, |links|)
  {
    if links != [] {
      ThreadedNestsCalls(rev, v, links[..|links| - 1]);
    }
  }
}
