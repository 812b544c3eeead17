/** The placeholder substitution of `_PipeTransformer`: `handle_atom` and
    `handle_node` (superpipe/__init__.py:34-109) as functions on trees.

    Each function returns the rewritten tree together with the flag the Python
    method returns: `mod` for `handle_atom`, "handled" for `handle_node`.
    The `Revision` parameter selects the code as written or the version with
    the three repairs described under Findings in README.md. */
module Substitution {
  import opened Ast

  datatype Revision = AsWritten | Corrected

  /** A rewritten tree and the flag reported with it. */
  datatype Rewritten<+T> = Rewritten(tree: T, found: bool)

  /** Whether a call `recv.m(...)` is settled by its receiver alone. As
      written it always is; corrected, only when the receiver holds a
      placeholder the visitor reaches. */
  predicate ReceiverFirst(rev: Revision, recv: Expr)
    decreases recv, 2
  {
    rev == AsWritten || HasSiteAtom(rev, recv)
  }

  /** `e`, in a slot passed to `handle_atom`, holds a placeholder that the
      visitor reaches and replaces. */
  predicate HasSiteAtom(rev: Revision, e: Expr)
    decreases e, 1
  {
    match e
    case Name(id) => id == Placeholder
    case Starred(v) => HasSiteAtom(rev, v)
    case _ => HasSiteNode(rev, e)
  }

  /** `e`, passed to `handle_node`, holds a placeholder that is replaced. */
  predicate HasSiteNode(rev: Revision, e: Expr)
    decreases e, 0
  {
    match e
    case Attribute(v, _) => HasSiteAtom(rev, v)
    case Subscript(v, _) => HasSiteAtom(rev, v)
    case BinOp(l, _, r) => HasSiteAtom(rev, l) || HasSiteAtom(rev, r)
    case Call(f, args, kws) =>
      if f.Attribute? && ReceiverFirst(rev, f.value) then HasSiteAtom(rev, f.value)
      else
        (exists i | 0 <= i < |args| :: HasSiteAtom(rev, args[i]))
        || (rev == Corrected && exists i | 0 <= i < |kws| :: HasSiteAtom(rev, kws[i].value))
    case Display(_, elts) => exists i | 0 <= i < |elts| :: HasSiteAtom(rev, elts[i])
    case Dict(keys, values) =>
      rev == Corrected &&
      ((exists i | 0 <= i < |keys| :: keys[i].Some? && HasSiteAtom(rev, keys[i].value))
       || (exists i | 0 <= i < |values| :: HasSiteAtom(rev, values[i])))
    case JoinedStr(parts) =>
      exists i | 0 <= i < |parts| :: parts[i].FormattedValue? && HasSiteAtom(rev, parts[i].value)
    case Comprehension(_, _, gens) => exists i | 0 <= i < |gens| :: HasSiteAtom(rev, gens[i].iter)
    case _ => false
  }

  /** `handle_atom(left, atom)`: a slot that is `_` becomes `left` and reports
      true; a star is looked through; any other slot is visited by
      `handle_node` for its rewrites only and reports false. */
  function SubstAtom(rev: Revision, left: Expr, atom: Expr): (r: Rewritten<Expr>)
    decreases atom, 1
    ensures r.found <==> DirectSlot(atom)
    ensures atom == Name(Placeholder) ==> r == Rewritten(left, true)
    ensures atom != Name(Placeholder) ==> SameShape(r.tree, atom)
    ensures atom.Starred? ==> r.tree == Starred(SubstAtom(rev, left, atom.value).tree)
  {
    match atom
    case Name(id) =>
      if id == Placeholder then Rewritten(left, true)
      else Rewritten(SubstNode(rev, left, atom).tree, false)
    case Starred(v) =>
      var inner := SubstAtom(rev, left, v);
      Rewritten(Starred(inner.tree), inner.found)
    case _ => Rewritten(SubstNode(rev, left, atom).tree, false)
  }

  /** `handle_node(left, right)`: the rewritten `right` and whether the pipe
      link counts as handled. */
  function SubstNode(rev: Revision, left: Expr, right: Expr): (r: Rewritten<Expr>)
    decreases right, 0
    ensures SameShape(r.tree, right)
    ensures right.Attribute? || right.Subscript? || right.BinOp? || right.Display?
            || right.JoinedStr? || right.Comprehension? || (rev == Corrected && right.Dict?)
            ==> r.found
    ensures right.Name? || right.Starred? || right.Other? || (rev == AsWritten && right.Dict?)
            ==> r == Rewritten(right, false)
  {
    match right
    case Attribute(v, attr) => Rewritten(Attribute(SubstAtom(rev, left, v).tree, attr), true)
    case Subscript(v, slice) => Rewritten(Subscript(SubstAtom(rev, left, v).tree, slice), true)
    case BinOp(l, op, r) =>
      Rewritten(BinOp(SubstAtom(rev, left, l).tree, op, SubstAtom(rev, left, r).tree), true)
    case Call(f, args, kws) =>
      if f.Attribute? && ReceiverFirst(rev, f.value) then
        Rewritten(Call(Attribute(SubstAtom(rev, left, f.value).tree, f.attr), args, kws), true)
      else
        Rewritten(Call(f, SubstEach(rev, left, args), SubstKeywords(rev, left, kws)),
                  AnyFound(rev, left, args) || AnyKeywordFound(rev, left, kws))
    case Display(kind, elts) => Rewritten(Display(kind, SubstEach(rev, left, elts)), true)
    case Dict(keys, values) =>
      if rev == AsWritten then Rewritten(right, false)
      else Rewritten(Dict(SubstKeys(rev, left, keys), SubstEach(rev, left, values)), true)
    case JoinedStr(parts) => Rewritten(JoinedStr(SubstParts(rev, left, parts)), true)
    case Comprehension(comp, results, gens) =>
      Rewritten(Comprehension(comp, results, SubstIters(rev, left, gens)), true)
    case _ => Rewritten(right, false)
  }

  /** Every slot of `xs` through `handle_atom`, in order. */
  function SubstEach(rev: Revision, left: Expr, xs: seq<Expr>): seq<Expr>
    decreases xs, 2
  {
    seq(|xs|, i requires 0 <= i < |xs| => SubstAtom(rev, left, xs[i]).tree)
  }

  /** The `once |= mod` accumulation over the slots of `xs`. */
  predicate AnyFound(rev: Revision, left: Expr, xs: seq<Expr>)
    decreases xs, 2
  {
    exists i | 0 <= i < |xs| :: SubstAtom(rev, left, xs[i]).found
  }

  /** `handle_atom` applied to a `keyword` node. As written the node itself
      is passed, which is neither a name nor a star and which `handle_node`
      does not know, so nothing changes. Corrected, its value is the slot. */
  function SubstKeyword(rev: Revision, left: Expr, kw: Keyword): Rewritten<Keyword>
    decreases kw, 3
  {
    if rev == AsWritten then Rewritten(kw, false)
    else
      var inner := SubstAtom(rev, left, kw.value);
      Rewritten(kw.(value := inner.tree), inner.found)
  }

  function SubstKeywords(rev: Revision, left: Expr, kws: seq<Keyword>): seq<Keyword>
    decreases kws, 2
  {
    seq(|kws|, i requires 0 <= i < |kws| => SubstKeyword(rev, left, kws[i]).tree)
  }

  predicate AnyKeywordFound(rev: Revision, left: Expr, kws: seq<Keyword>)
    decreases kws, 2
  {
    exists i | 0 <= i < |kws| :: SubstKeyword(rev, left, kws[i]).found
  }

  /** A dictionary key; the absent key of a `**mapping` entry is skipped. */
  function SubstKey(rev: Revision, left: Expr, key: Option<Expr>): Option<Expr>
    decreases key, 3
  {
    match key
    case None => None
    case Some(k) => Some(SubstAtom(rev, left, k).tree)
  }

  function SubstKeys(rev: Revision, left: Expr, keys: seq<Option<Expr>>): seq<Option<Expr>>
    decreases keys, 2
  {
    seq(|keys|, i requires 0 <= i < |keys| => SubstKey(rev, left, keys[i]))
  }

  /** A piece of an f-string: a hole is a slot, literal text is left alone. */
  function SubstPart(rev: Revision, left: Expr, part: StrPart): StrPart
    decreases part, 3
  {
    match part
    case Constant(_) => part
    case FormattedValue(v) => FormattedValue(SubstAtom(rev, left, v).tree)
  }

  function SubstParts(rev: Revision, left: Expr, parts: seq<StrPart>): seq<StrPart>
    decreases parts, 2
  {
    seq(|parts|, i requires 0 <= i < |parts| => SubstPart(rev, left, parts[i]))
  }

  /** The iterated expression of every generator; targets and filters are left alone. */
  function SubstIters(rev: Revision, left: Expr, gens: seq<Generator>): seq<Generator>
    decreases gens, 2
  {
    seq(|gens|, i requires 0 <= i < |gens| =>
      gens[i].(iter := SubstAtom(rev, left, gens[i].iter).tree))
  }

  // ---------------------------------------------------------------------
  // What the substitution changes

  /** A placeholder in slot position is the only thing `handle_atom` reports. */
  lemma {:induction false} DirectSlotIsSite(rev: Revision, e: Expr)
    requires DirectSlot(e)
    ensures HasSiteAtom(rev, e)
  {
    match e
    case Name(_) =>
    case Starred(v) => DirectSlotIsSite(rev, v);
  }

  /** A slot without a reachable placeholder comes back as it went in. */
  lemma {:induction false} UnreachedAtomUnchanged(rev: Revision, left: Expr, e: Expr)
    requires !HasSiteAtom(rev, e)
    ensures SubstAtom(rev, left, e) == Rewritten(e, false)
    decreases e, 1
  {
    if e.Starred? {
      UnreachedAtomUnchanged(rev, left, e.value);
    } else if !e.Name? {
      assert !HasSiteNode(rev, e);
      UnreachedNodeUnchanged(rev, left, e);
      assert SubstAtom(rev, left, e) == Rewritten(SubstNode(rev, left, e).tree, false);
    }
  }

  /** A node without a reachable placeholder is not rewritten (its flag may
      still be true: that depends on its kind alone). */
  lemma {:induction false} UnreachedNodeUnchanged(rev: Revision, left: Expr, e: Expr)
    requires !HasSiteNode(rev, e)
    ensures SubstNode(rev, left, e).tree == e
    decreases e, 0
  {
    match e
    case Attribute(v, _) => UnreachedAtomUnchanged(rev, left, v);
    case Subscript(v, _) => UnreachedAtomUnchanged(rev, left, v);
    case BinOp(l, _, r) =>
      UnreachedAtomUnchanged(rev, left, l);
      UnreachedAtomUnchanged(rev, left, r);
    case Call(_, _, _) => UnreachedCallUnchanged(rev, left, e);
    case Display(_, _) => UnreachedCollectionUnchanged(rev, left, e);
    case Dict(_, _) => UnreachedDictUnchanged(rev, left, e);
    case JoinedStr(_) => UnreachedCollectionUnchanged(rev, left, e);
    case Comprehension(_, _, _) => UnreachedCollectionUnchanged(rev, left, e);
    case Name(_) =>
    case Starred(_) =>
    case Other(_, _) =>
  }

  lemma {:induction false} UnreachedCollectionUnchanged(rev: Revision, left: Expr, e: Expr)
    requires (e.Display? || e.JoinedStr? || e.Comprehension?) && !HasSiteNode(rev, e)
    ensures SubstNode(rev, left, e).tree == e
    decreases e, 0, 0
  {
    if e.Display? {
      UnreachedEachUnchanged(rev, left, e.elts);
    } else if e.JoinedStr? {
      UnreachedPartsUnchanged(rev, left, e.parts);
    } else {
      UnreachedItersUnchanged(rev, left, e.generators);
    }
  }

  lemma {:induction false} UnreachedCallUnchanged(rev: Revision, left: Expr, e: Expr)
    requires e.Call? && !HasSiteNode(rev, e)
    ensures SubstNode(rev, left, e).tree == e
    decreases e, 0, 0
  {
    var f := e.func;
    if f.Attribute? && ReceiverFirst(rev, f.value) {
      UnreachedAtomUnchanged(rev, left, f.value);
    } else {
      UnreachedEachUnchanged(rev, left, e.args);
      UnreachedKeywordsUnchanged(rev, left, e.keywords);
    }
  }

  lemma {:induction false} UnreachedDictUnchanged(rev: Revision, left: Expr, e: Expr)
    requires e.Dict? && !HasSiteNode(rev, e)
    ensures SubstNode(rev, left, e).tree == e
    decreases e, 0, 0
  {
    if rev == Corrected {
      UnreachedKeysUnchanged(rev, left, e.keys);
      UnreachedEachUnchanged(rev, left, e.values);
    }
  }

  lemma {:induction false} UnreachedKeywordsUnchanged(rev: Revision, left: Expr, kws: seq<Keyword>)
    requires rev == Corrected ==> forall i | 0 <= i < |kws| :: !HasSiteAtom(rev, kws[i].value)
    ensures SubstKeywords(rev, left, kws) == kws
    decreases kws, 2
  {
    forall i | 0 <= i < |kws| ensures SubstKeyword(rev, left, kws[i]).tree == kws[i] {
      UnreachedKeywordUnchanged(rev, left, kws[i]);
    }
  }

  lemma {:induction false} UnreachedKeywordUnchanged(rev: Revision, left: Expr, kw: Keyword)
    requires rev == Corrected ==> !HasSiteAtom(rev, kw.value)
    ensures SubstKeyword(rev, left, kw) == Rewritten(kw, false)
    decreases kw, 3
  {
    if rev == Corrected { UnreachedAtomUnchanged(rev, left, kw.value); }
  }

  lemma {:induction false} UnreachedKeysUnchanged(rev: Revision, left: Expr, keys: seq<Option<Expr>>)
    requires forall i | 0 <= i < |keys| :: keys[i].Some? ==> !HasSiteAtom(rev, keys[i].value)
    ensures SubstKeys(rev, left, keys) == keys
    decreases keys, 2
  {
    forall i | 0 <= i < |keys| ensures SubstKey(rev, left, keys[i]) == keys[i] {
      UnreachedKeyUnchanged(rev, left, keys[i]);
    }
  }

  lemma {:induction false} UnreachedKeyUnchanged(rev: Revision, left: Expr, key: Option<Expr>)
    requires key.Some? ==> !HasSiteAtom(rev, key.value)
    ensures SubstKey(rev, left, key) == key
    decreases key, 3
  {
    if key.Some? { UnreachedAtomUnchanged(rev, left, key.value); }
  }

  lemma {:induction false} UnreachedPartsUnchanged(rev: Revision, left: Expr, parts: seq<StrPart>)
    requires forall i | 0 <= i < |parts| :: parts[i].FormattedValue? ==> !HasSiteAtom(rev, parts[i].value)
    ensures SubstParts(rev, left, parts) == parts
    decreases parts, 2
  {
    forall i | 0 <= i < |parts| ensures SubstPart(rev, left, parts[i]) == parts[i] {
      UnreachedPartUnchanged(rev, left, parts[i]);
    }
  }

  lemma {:induction false} UnreachedPartUnchanged(rev: Revision, left: Expr, part: StrPart)
    requires part.FormattedValue? ==> !HasSiteAtom(rev, part.value)
    ensures SubstPart(rev, left, part) == part
    decreases part, 3
  {
    if part.FormattedValue? { UnreachedAtomUnchanged(rev, left, part.value); }
  }

  lemma {:induction false} UnreachedItersUnchanged(rev: Revision, left: Expr, gens: seq<Generator>)
    requires forall i | 0 <= i < |gens| :: !HasSiteAtom(rev, gens[i].iter)
    ensures SubstIters(rev, left, gens) == gens
    decreases gens, 2
  {
    forall i | 0 <= i < |gens| ensures SubstAtom(rev, left, gens[i].iter).tree == gens[i].iter {
      UnreachedAtomUnchanged(rev, left, gens[i].iter);
    }
  }

  lemma {:induction false} UnreachedEachUnchanged(rev: Revision, left: Expr, xs: seq<Expr>)
    requires forall i | 0 <= i < |xs| :: !HasSiteAtom(rev, xs[i])
    ensures SubstEach(rev, left, xs) == xs
    ensures !AnyFound(rev, left, xs)
    decreases xs, 2
  {
    forall i | 0 <= i < |xs| ensures SubstAtom(rev, left, xs[i]) == Rewritten(xs[i], false) {
      UnreachedAtomUnchanged(rev, left, xs[i]);
    }
  }

  /** Conversely, a slot holding a reachable placeholder is changed by any
      value other than `_` itself: the placeholder is replaced. */
  lemma {:induction false} ReachedAtomChanged(rev: Revision, left: Expr, e: Expr)
    requires left != Name(Placeholder) && HasSiteAtom(rev, e)
    ensures SubstAtom(rev, left, e).tree != e
    decreases e, 1
  {
    if e.Starred? {
      ReachedAtomChanged(rev, left, e.value);
    } else if !e.Name? {
      assert HasSiteNode(rev, e);
      ReachedNodeChanged(rev, left, e);
      assert SubstAtom(rev, left, e).tree == SubstNode(rev, left, e).tree;
    }
  }

  /** A node holding a reachable placeholder is rewritten. */
  lemma {:induction false} ReachedNodeChanged(rev: Revision, left: Expr, e: Expr)
    requires left != Name(Placeholder) && HasSiteNode(rev, e)
    ensures SubstNode(rev, left, e).tree != e
    decreases e, 0
  {
    var t := SubstNode(rev, left, e).tree;
    match e
    case Attribute(v, _) =>
      ReachedAtomChanged(rev, left, v);
      assert t.value != e.value;
    case Subscript(v, _) =>
      ReachedAtomChanged(rev, left, v);
      assert t.value != e.value;
    case BinOp(l, _, r) =>
      if HasSiteAtom(rev, l) {
        ReachedAtomChanged(rev, left, l);
        assert t.left != e.left;
      } else {
        ReachedAtomChanged(rev, left, r);
        assert t.right != e.right;
      }
    case Call(_, _, _) => ReachedCallChanged(rev, left, e);
    case Display(_, _) => ReachedCollectionChanged(rev, left, e);
    case Dict(_, _) => ReachedDictChanged(rev, left, e);
    case JoinedStr(_) => ReachedCollectionChanged(rev, left, e);
    case Comprehension(_, _, _) => ReachedCollectionChanged(rev, left, e);
  }

  lemma {:induction false} ReachedCollectionChanged(rev: Revision, left: Expr, e: Expr)
    requires left != Name(Placeholder) && (e.Display? || e.JoinedStr? || e.Comprehension?)
    requires HasSiteNode(rev, e)
    ensures SubstNode(rev, left, e).tree != e
    decreases e, 0, 0
  {
    var t := SubstNode(rev, left, e).tree;
    if e.Display? {
      var i :| 0 <= i < |e.elts| && HasSiteAtom(rev, e.elts[i]);
      ReachedAtomChanged(rev, left, e.elts[i]);
      assert t.elts == SubstEach(rev, left, e.elts);
      assert t.elts[i] == SubstAtom(rev, left, e.elts[i]).tree;
    } else if e.JoinedStr? {
      var i :| 0 <= i < |e.parts| && e.parts[i].FormattedValue? && HasSiteAtom(rev, e.parts[i].value);
      ReachedPartChanged(rev, left, e.parts[i]);
      assert t.parts == SubstParts(rev, left, e.parts);
      assert t.parts[i] == SubstPart(rev, left, e.parts[i]);
    } else {
      var i :| 0 <= i < |e.generators| && HasSiteAtom(rev, e.generators[i].iter);
      ReachedIterChanged(rev, left, e.generators[i]);
      assert t.generators == SubstIters(rev, left, e.generators);
      assert t.generators[i].iter == SubstAtom(rev, left, e.generators[i].iter).tree;
    }
  }

  lemma {:induction false} ReachedCallChanged(rev: Revision, left: Expr, e: Expr)
    requires left != Name(Placeholder) && e.Call? && HasSiteNode(rev, e)
    ensures SubstNode(rev, left, e).tree != e
    decreases e, 0, 0
  {
    var t := SubstNode(rev, left, e).tree;
    var f := e.func;
    if f.Attribute? && ReceiverFirst(rev, f.value) {
      ReachedAtomChanged(rev, left, f.value);
      assert t.func.value != e.func.value;
    } else if exists i | 0 <= i < |e.args| :: HasSiteAtom(rev, e.args[i]) {
      var i :| 0 <= i < |e.args| && HasSiteAtom(rev, e.args[i]);
      ReachedAtomChanged(rev, left, e.args[i]);
      assert t.args == SubstEach(rev, left, e.args);
      assert t.args[i] == SubstAtom(rev, left, e.args[i]).tree;
    } else {
      var i :| 0 <= i < |e.keywords| && HasSiteAtom(rev, e.keywords[i].value);
      ReachedKeywordChanged(rev, left, e.keywords[i]);
      assert t.keywords == SubstKeywords(rev, left, e.keywords);
      assert t.keywords[i] == SubstKeyword(rev, left, e.keywords[i]).tree;
    }
  }

  lemma {:induction false} ReachedKeywordChanged(rev: Revision, left: Expr, kw: Keyword)
    requires left != Name(Placeholder) && rev == Corrected && HasSiteAtom(rev, kw.value)
    ensures SubstKeyword(rev, left, kw).tree != kw
    decreases kw, 3
  {
    ReachedAtomChanged(rev, left, kw.value);
  }

  lemma {:induction false} ReachedDictChanged(rev: Revision, left: Expr, e: Expr)
    requires left != Name(Placeholder) && e.Dict? && HasSiteNode(rev, e)
    ensures SubstNode(rev, left, e).tree != e
    decreases e, 0, 0
  {
    var t := SubstNode(rev, left, e).tree;
    if exists i | 0 <= i < |e.keys| :: e.keys[i].Some? && HasSiteAtom(rev, e.keys[i].value) {
      var i :| 0 <= i < |e.keys| && e.keys[i].Some? && HasSiteAtom(rev, e.keys[i].value);
      ReachedKeyChanged(rev, left, e.keys[i]);
      assert t.keys == SubstKeys(rev, left, e.keys);
      assert t.keys[i] == SubstKey(rev, left, e.keys[i]);
    } else {
      var i :| 0 <= i < |e.values| && HasSiteAtom(rev, e.values[i]);
      ReachedAtomChanged(rev, left, e.values[i]);
      assert t.values == SubstEach(rev, left, e.values);
      assert t.values[i] == SubstAtom(rev, left, e.values[i]).tree;
    }
  }

  lemma {:induction false} ReachedKeyChanged(rev: Revision, left: Expr, key: Option<Expr>)
    requires left != Name(Placeholder) && key.Some? && HasSiteAtom(rev, key.value)
    ensures SubstKey(rev, left, key) != key
    decreases key, 3
  {
    ReachedAtomChanged(rev, left, key.value);
  }

  lemma {:induction false} ReachedPartChanged(rev: Revision, left: Expr, part: StrPart)
    requires left != Name(Placeholder) && part.FormattedValue? && HasSiteAtom(rev, part.value)
    ensures SubstPart(rev, left, part) != part
    decreases part, 3
  {
    ReachedAtomChanged(rev, left, part.value);
  }

  lemma {:induction false} ReachedIterChanged(rev: Revision, left: Expr, gen: Generator)
    requires left != Name(Placeholder) && HasSiteAtom(rev, gen.iter)
    ensures SubstAtom(rev, left, gen.iter).tree != gen.iter
    decreases gen, 3
  {
    ReachedAtomChanged(rev, left, gen.iter);
  }

  /** Together: for any value other than `_`, a slot is changed exactly
      when it holds a placeholder the visitor reaches. */
  lemma SlotChangedIffReached(rev: Revision, left: Expr, e: Expr)
    requires left != Name(Placeholder)
    ensures SubstAtom(rev, left, e).tree != e <==> HasSiteAtom(rev, e)
  {
    if HasSiteAtom(rev, e) {
      ReachedAtomChanged(rev, left, e);
    } else {
      UnreachedAtomUnchanged(rev, left, e);
    }
  }

  /** Substituting the placeholder for itself changes nothing: every edit the
      visitor makes is at a slot that held `_`. */
  lemma {:induction false} SelfSubstAtom(rev: Revision, e: Expr)
    ensures SubstAtom(rev, Name(Placeholder), e).tree == e
    decreases e, 1
  {
    match e
    case Name(_) =>
    case Starred(v) => SelfSubstAtom(rev, v);
    case _ => SelfSubstNode(rev, e);
  }

  lemma {:induction false} SelfSubstNode(rev: Revision, e: Expr)
    ensures SubstNode(rev, Name(Placeholder), e).tree == e
    decreases e, 0
  {
    var p := Name(Placeholder);
    match e
    case Attribute(v, _) => SelfSubstAtom(rev, v);
    case Subscript(v, _) => SelfSubstAtom(rev, v);
    case BinOp(l, _, r) =>
      SelfSubstAtom(rev, l);
      SelfSubstAtom(rev, r);
    case Call(f, args, kws) =>
      if f.Attribute? && ReceiverFirst(rev, f.value) {
        SelfSubstAtom(rev, f.value);
      } else {
        SelfSubstEach(rev, args);
        forall i | 0 <= i < |kws| ensures SubstKeyword(rev, p, kws[i]).tree == kws[i] {
          if rev == Corrected { SelfSubstAtom(rev, kws[i].value); }
        }
        assert SubstKeywords(rev, p, kws) == kws;
      }
    case Display(_, elts) => SelfSubstEach(rev, elts);
    case Dict(keys, values) =>
      if rev == Corrected {
        forall i | 0 <= i < |keys| ensures SubstKey(rev, p, keys[i]) == keys[i] {
          if keys[i].Some? { SelfSubstAtom(rev, keys[i].value); }
        }
        assert SubstKeys(rev, p, keys) == keys;
        SelfSubstEach(rev, values);
      }
    case JoinedStr(parts) =>
      forall i | 0 <= i < |parts| ensures SubstPart(rev, p, parts[i]) == parts[i] {
        if parts[i].FormattedValue? { SelfSubstAtom(rev, parts[i].value); }
      }
      assert SubstParts(rev, p, parts) == parts;
    case Comprehension(_, _, gens) =>
      forall i | 0 <= i < |gens| ensures SubstAtom(rev, p, gens[i].iter).tree == gens[i].iter {
        SelfSubstAtom(rev, gens[i].iter);
      }
      assert SubstIters(rev, p, gens) == gens;
    case _ =>
  }

  lemma {:induction false} SelfSubstEach(rev: Revision, xs: seq<Expr>)
    ensures SubstEach(rev, Name(Placeholder), xs) == xs
    decreases xs, 2
  {
    forall i | 0 <= i < |xs| ensures SubstAtom(rev, Name(Placeholder), xs[i]).tree == xs[i] {
      SelfSubstAtom(rev, xs[i]);
    }
  }

  // ---------------------------------------------------------------------
  // The kind-by-kind rules of `handle_node`

  /** `_.attr` and `_[i]`: only the base is a slot, and the link is handled
      whether or not the base held a placeholder. */
  lemma BaseIsTheOnlySlot(rev: Revision, left: Expr, right: Expr)
    requires right.Attribute? || right.Subscript?
    ensures var r := SubstNode(rev, left, right);
      && r.found
      && r.tree.value == SubstAtom(rev, left, right.value).tree
      && (right.value == Name(Placeholder) ==> r.tree.value == left)
      && (right.Attribute? ==> r.tree.attr == right.attr)
      && (right.Subscript? ==> r.tree.slice == right.slice)
  {
  }

  /** `_ + x`, `x + _`: both operands are slots, rewritten independently,
      and the link is handled. */
  lemma OperandsAreSlots(rev: Revision, left: Expr, right: Expr)
    requires right.BinOp?
    ensures var r := SubstNode(rev, left, right);
      && r.found
      && r.tree == BinOp(SubstAtom(rev, left, right.left).tree, right.op,
                         SubstAtom(rev, left, right.right).tree)
      && (right.left == Name(Placeholder) ==> r.tree.left == left)
      && (right.right == Name(Placeholder) ==> r.tree.right == left)
  {
  }

  /** As written, `recv.m(args)` rewrites the receiver and reports handled;
      the arguments and keywords are never looked at. */
  lemma MethodCallVisitsReceiverOnly(left: Expr, right: Expr)
    requires right.Call? && right.func.Attribute?
    ensures var r := SubstNode(AsWritten, left, right);
      && r.found
      && r.tree.func == Attribute(SubstAtom(AsWritten, left, right.func.value).tree, right.func.attr)
      && (right.func.value == Name(Placeholder) ==> r.tree.func.value == left)
      && r.tree.args == right.args
      && r.tree.keywords == right.keywords
  {
  }

  /** Any other call: every argument slot goes through `handle_atom` in
      order, and the link is handled exactly when some slot is itself `_` or
      `*_` (a keyword value counts only in the corrected revision). */
  lemma CallHandledIffDirectSlot(rev: Revision, left: Expr, right: Expr)
    requires right.Call? && !(right.func.Attribute? && ReceiverFirst(rev, right.func.value))
    ensures var r := SubstNode(rev, left, right);
      && r.tree.func == right.func
      && |r.tree.args| == |right.args|
      && (forall i | 0 <= i < |right.args| :: r.tree.args[i] == SubstAtom(rev, left, right.args[i]).tree)
      && (forall i | 0 <= i < |right.args| :: right.args[i] == Name(Placeholder) ==> r.tree.args[i] == left)
      && (rev == AsWritten ==> r.tree.keywords == right.keywords)
      && (r.found <==>
            (exists i | 0 <= i < |right.args| :: DirectSlot(right.args[i]))
            || (rev == Corrected && exists i | 0 <= i < |right.keywords| :: DirectSlot(right.keywords[i].value)))
  {
    var r := SubstNode(rev, left, right);
    if rev == AsWritten {
      assert SubstKeywords(rev, left, right.keywords) == right.keywords;
      assert !AnyKeywordFound(rev, left, right.keywords);
    }
  }

  /** Displays, f-strings and comprehensions: every element, every hole and
      every generator's iterable is a slot, lengths and order are kept, and
      the link is handled even when nothing was replaced. */
  lemma CollectionSlotsRewritten(rev: Revision, left: Expr, right: Expr)
    requires right.Display? || right.JoinedStr? || right.Comprehension?
    ensures var r := SubstNode(rev, left, right);
      && r.found
      && (right.Display? ==>
            r.tree.kind == right.kind && |r.tree.elts| == |right.elts|
            && (forall i | 0 <= i < |right.elts| :: r.tree.elts[i] == SubstAtom(rev, left, right.elts[i]).tree)
            && forall i | 0 <= i < |right.elts| :: right.elts[i] == Name(Placeholder) ==> r.tree.elts[i] == left)
      && (right.JoinedStr? ==>
            |r.tree.parts| == |right.parts|
            && forall i | 0 <= i < |right.parts| ::
                 r.tree.parts[i] == (if right.parts[i].Constant? then right.parts[i]
                                     else FormattedValue(SubstAtom(rev, left, right.parts[i].value).tree)))
      && (right.Comprehension? ==>
            r.tree.comp == right.comp && r.tree.results == right.results
            && |r.tree.generators| == |right.generators|
            && forall i | 0 <= i < |right.generators| ::
                 r.tree.generators[i].target == right.generators[i].target
                 && r.tree.generators[i].ifs == right.generators[i].ifs
                 && r.tree.generators[i].iter == SubstAtom(rev, left, right.generators[i].iter).tree)
  {
    if right.JoinedStr? {
      forall i | 0 <= i < |right.parts|
        ensures SubstPart(rev, left, right.parts[i])
             == if right.parts[i].Constant? then right.parts[i]
                else FormattedValue(SubstAtom(rev, left, right.parts[i].value).tree)
      {
      }
    }
  }
}
