/** `_PipeTransformer` (superpipe/__init__.py:33-139) as methods with the loops
    of the Python code. Each method is proved to compute the tree and flag of
    the matching function in `Substitution` or `Chain`; an assignment to a
    node field or list slot in Python is a rebuilt value here. */
module Transformer {
  import opened Ast
  import opened Substitution
  import Chain

  /** `handle_atom` (lines 34-47). */
  method HandleAtom(rev: Revision, left: Expr, atom: Expr) returns (result: Expr, mod: bool)
    decreases atom, 2
    ensures Rewritten(result, mod) == SubstAtom(rev, left, atom)
  {
    if atom == Name(Placeholder) {
      return left, true;
    } else if atom.Starred? {
      var value;
      value, mod := HandleAtom(rev, left, atom.value);
      return Starred(value), mod;
    }
    var visited, handled := HandleNode(rev, left, atom);
    return visited, false;
  }

  /** `handle_node` (lines 50-109). */
  method HandleNode(rev: Revision, left: Expr, right: Expr) returns (result: Expr, handled: bool)
    decreases right, 1
    ensures Rewritten(result, handled) == SubstNode(rev, left, right)
  {
    match right
    case Attribute(v, attr) =>
      var value, mod := HandleAtom(rev, left, v);
      return Attribute(value, attr), true;
    case Subscript(v, slice) =>
      var value, mod := HandleAtom(rev, left, v);
      return Subscript(value, slice), true;
    case BinOp(l, op, r) =>
      var newLeft, modLeft := HandleAtom(rev, left, l);
      var newRight, modRight := HandleAtom(rev, left, r);
      return BinOp(newLeft, op, newRight), true;
    case Call(_, _, _) =>
      result, handled := HandleCall(rev, left, right);
    case Display(kind, elts) =>
      var newElts, found := HandleSlots(rev, left, elts);
      return Display(kind, newElts), true;
    case Dict(keys, values) =>
      if rev == AsWritten {
        return right, false;
      }
      var newKeys := HandleKeys(rev, left, keys);
      var newValues, found := HandleSlots(rev, left, values);
      return Dict(newKeys, newValues), true;
    case JoinedStr(parts) =>
      var newParts := HandleParts(rev, left, parts);
      return JoinedStr(newParts), true;
    case Comprehension(comp, results, gens) =>
      var newGens := HandleIters(rev, left, gens);
      return Comprehension(comp, results, newGens), true;
    case _ =>
      return right, false;
  }

  /** The call branch of `handle_node` (lines 70-87): a call on an attribute
      is settled by its receiver; any other call has its positional and
      keyword slots visited. */
  method HandleCall(rev: Revision, left: Expr, right: Expr) returns (result: Expr, handled: bool)
    requires right.Call?
    decreases right, 0
    ensures Rewritten(result, handled) == SubstNode(rev, left, right)
  {
    var f, args, kws := right.func, right.args, right.keywords;
    if f.Attribute? && ReceiverFirst(rev, f.value) {
      var receiver, mod := HandleAtom(rev, left, f.value);
      return Call(Attribute(receiver, f.attr), args, kws), true;
    }
    var newArgs, argsFound := HandleSlots(rev, left, args);
    var newKws, kwsFound := HandleKeywords(rev, left, kws);
    return Call(f, newArgs, newKws), argsFound || kwsFound;
  }

  /** The loop over one argument list (lines 79-82): every slot through
      `handle_atom`, left to right, the flags or-ed together. */
  method HandleSlots(rev: Revision, left: Expr, xs: seq<Expr>) returns (ys: seq<Expr>, once: bool)
    decreases xs, 3
    ensures ys == SubstEach(rev, left, xs)
    ensures once == AnyFound(rev, left, xs)
  {
    ys, once := xs, false;
    for i := 0 to |xs|
      invariant |ys| == |xs|
      invariant forall j | 0 <= j < i :: ys[j] == SubstAtom(rev, left, xs[j]).tree
      invariant forall j | i <= j < |xs| :: ys[j] == xs[j]
      invariant once <==> exists j | 0 <= j < i :: SubstAtom(rev, left, xs[j]).found
    {
      var slot, mod := HandleAtom(rev, left, xs[i]);
      ys := ys[i := slot];
      once := once || mod;
    }
  }

  /** The same loop over `right.keywords`: each `keyword` node is the slot as
      written, its value when corrected. */
  method HandleKeywords(rev: Revision, left: Expr, kws: seq<Keyword>) returns (ys: seq<Keyword>, once: bool)
    decreases kws, 3
    ensures ys == SubstKeywords(rev, left, kws)
    ensures once == AnyKeywordFound(rev, left, kws)
  {
    ys, once := kws, false;
    for i := 0 to |kws|
      invariant |ys| == |kws|
      invariant forall j | 0 <= j < i :: ys[j] == SubstKeyword(rev, left, kws[j]).tree
      invariant forall j | i <= j < |kws| :: ys[j] == kws[j]
      invariant once <==> exists j | 0 <= j < i :: SubstKeyword(rev, left, kws[j]).found
    {
      var kw, mod := HandleKeyword(rev, left, kws[i]);
      ys := ys[i := kw];
      once := once || mod;
    }
  }

  method HandleKeyword(rev: Revision, left: Expr, kw: Keyword) returns (result: Keyword, mod: bool)
    decreases kw, 4
    ensures Rewritten(result, mod) == SubstKeyword(rev, left, kw)
  {
    if rev == AsWritten {
      return kw, false;
    }
    var value;
    value, mod := HandleAtom(rev, left, kw.value);
    return kw.(value := value), mod;
  }

  /** Corrected revision only: the keys of a dictionary display. */
  method HandleKeys(rev: Revision, left: Expr, keys: seq<Option<Expr>>) returns (ys: seq<Option<Expr>>)
    decreases keys, 3
    ensures ys == SubstKeys(rev, left, keys)
  {
    ys := keys;
    for i := 0 to |keys|
      invariant |ys| == |keys|
      invariant forall j | 0 <= j < i :: ys[j] == SubstKey(rev, left, keys[j])
      invariant forall j | i <= j < |keys| :: ys[j] == keys[j]
    {
      var key := HandleKey(rev, left, keys[i]);
      ys := ys[i := key];
    }
  }

  method HandleKey(rev: Revision, left: Expr, key: Option<Expr>) returns (result: Option<Expr>)
    decreases key, 4
    ensures result == SubstKey(rev, left, key)
  {
    if key.None? {
      return None;
    }
    var k, mod := HandleAtom(rev, left, key.value);
    return Some(k);
  }

  /** The holes of an f-string (lines 96-99), left to right; literal text is skipped. */
  method HandleParts(rev: Revision, left: Expr, parts: seq<StrPart>) returns (ys: seq<StrPart>)
    decreases parts, 3
    ensures ys == SubstParts(rev, left, parts)
  {
    ys := parts;
    for i := 0 to |parts|
      invariant |ys| == |parts|
      invariant forall j | 0 <= j < i :: ys[j] == SubstPart(rev, left, parts[j])
      invariant forall j | i <= j < |parts| :: ys[j] == parts[j]
    {
      if parts[i].FormattedValue? {
        var part := HandlePart(rev, left, parts[i]);
        ys := ys[i := part];
      }
    }
  }

  method HandlePart(rev: Revision, left: Expr, part: StrPart) returns (result: StrPart)
    requires part.FormattedValue?
    decreases part, 4
    ensures result == SubstPart(rev, left, part)
  {
    var value, mod := HandleAtom(rev, left, part.value);
    return FormattedValue(value);
  }

  /** The iterable of every generator of a comprehension (lines 104-106). */
  method HandleIters(rev: Revision, left: Expr, gens: seq<Generator>) returns (ys: seq<Generator>)
    decreases gens, 3
    ensures ys == SubstIters(rev, left, gens)
  {
    ys := gens;
    for i := 0 to |gens|
      invariant |ys| == |gens|
      invariant forall j | 0 <= j < i :: ys[j] == gens[j].(iter := SubstAtom(rev, left, gens[j].iter).tree)
      invariant forall j | i <= j < |gens| :: ys[j] == gens[j]
    {
      var iter, mod := HandleAtom(rev, left, gens[i].iter);
      ys := ys[i := gens[i].(iter := iter)];
    }
  }

  /** `self.visit(e)`: binary operators are dispatched to `visit_BinOp`. */
  method Visit(rev: Revision, e: Expr) returns (v: Chain.Visited)
    decreases e, 1
    ensures v == Chain.Visit(rev, e)
  {
    if e.BinOp? {
      v := VisitBinOp(rev, e);
    } else {
      v := Chain.Visited(e, e);
    }
  }

  /** `visit_BinOp` (lines 111-139). */
  method VisitBinOp(rev: Revision, node: Expr) returns (v: Chain.Visited)
    requires node.BinOp?
    decreases node, 0
    ensures v == Chain.Visit(rev, node)
  {
    var visitedLeft := Visit(rev, node.left);
    var left, op, right := visitedLeft.replacement, node.op, node.right;
    if op.IsPipe() {
      var rewritten, handled := HandleNode(rev, left, right);
      if handled {
        return Chain.Visited(rewritten, BinOp(visitedLeft.inPlace, op, rewritten));
      }
      if rewritten.Call? {
        var args := rewritten.args;
        var k := if op == RShift then 0 else |args|;
        rewritten := rewritten.(args := args[..k] + [left] + args[k..]);
        return Chain.Visited(rewritten, BinOp(visitedLeft.inPlace, op, rewritten));
      }
      return Chain.Visited(Call(rewritten, [left], []), BinOp(visitedLeft.inPlace, op, rewritten));
    }
    var kept := BinOp(visitedLeft.inPlace, op, right);
    return Chain.Visited(kept, kept);
  }
}
