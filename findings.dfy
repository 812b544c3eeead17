/** Three places where superpipe/__init__.py does not do what its own tests
    expect. For each, a lemma about the code as written exhibits the input,
    and lemmas about the corrected revision prove the intended behaviour. */
module Findings {
  import opened Ast
  import opened Substitution
  import opened Chain

  /** `Utils.name(args...)`, a call whose callee is an attribute access. */
  function UtilsCall(name: string, args: seq<Expr>): Expr
  {
    Call(Attribute(Name("Utils"), name), args, [])
  }

  // ---------------------------------------------------------------------
  // 1. A call on an attribute is settled by its receiver even when the
  //    receiver holds no placeholder (lines 73-75).

  /** As written, `5 >> Utils.add2(1)` gives back `Utils.add2(1)`: the piped
      value is dropped (tests/test.py:75 expects `Utils.add2(5, 1)`). */
  lemma MethodCallDropsValue()
    ensures Visit(AsWritten, BinOp(Leaf("5"), RShift, UtilsCall("add2", [Leaf("1")]))).replacement
         == UtilsCall("add2", [Leaf("1")])
  {
  }

  /** As written, `5 >> Utils.div(_, 1)` keeps the argument `_`
      (tests/test.py:95 expects `Utils.div(5, 1)`). */
  lemma MethodCallKeepsArgumentPlaceholder()
    ensures Visit(AsWritten, BinOp(Leaf("5"), RShift, UtilsCall("div", [Name(Placeholder), Leaf("1")]))).replacement
         == UtilsCall("div", [Name(Placeholder), Leaf("1")])
  {
  }

  /** Corrected: a receiver without a placeholder makes the call an ordinary
      one, so with no placeholder at all `>>` prepends and `<<` appends. */
  lemma CorrectedMethodCallTakesValue(op: Operator, left: Expr, recv: Expr, m: string,
                                      args: seq<Expr>, kws: seq<Keyword>)
    requires !HasSiteNode(Corrected, Call(Attribute(recv, m), args, kws))
    ensures op == RShift ==> Link(Corrected, op, left, Call(Attribute(recv, m), args, kws)).replacement
                             == Call(Attribute(recv, m), [left] + args, kws)
    ensures op != RShift ==> Link(Corrected, op, left, Call(Attribute(recv, m), args, kws)).replacement
                             == Call(Attribute(recv, m), args + [left], kws)
  {
    PlainCallGetsArgument(Corrected, op, left, Attribute(recv, m), args, kws);
  }

  /** Corrected: with a placeholder-free receiver the argument slots are
      substituted as for any call, and the link is handled exactly when one
      of them is `_` or `*_`. */
  lemma CorrectedMethodCallScansArguments(left: Expr, recv: Expr, m: string, args: seq<Expr>, kws: seq<Keyword>)
    requires !HasSiteAtom(Corrected, recv)
    ensures var r := SubstNode(Corrected, left, Call(Attribute(recv, m), args, kws));
      && r.tree.func == Attribute(recv, m)
      && |r.tree.args| == |args|
      && (forall i | 0 <= i < |args| :: r.tree.args[i] == SubstAtom(Corrected, left, args[i]).tree)
      && (r.found <==> (exists i | 0 <= i < |args| :: DirectSlot(args[i]))
                       || (exists i | 0 <= i < |kws| :: DirectSlot(kws[i].value)))
  {
    CallHandledIffDirectSlot(Corrected, left, Call(Attribute(recv, m), args, kws));
  }

  /** Corrected: a receiver that holds a placeholder still wins, as in
      `_.bit_length()`. The link is handled, so the value is not inserted; the
      receiver alone is substituted (a `_` receiver becomes the value, and any
      other value than `_` changes it), and the arguments and keywords come
      back as written, even when they hold `_` themselves. */
  lemma CorrectedReceiverStillFirst(op: Operator, left: Expr, recv: Expr, m: string,
                                    args: seq<Expr>, kws: seq<Keyword>)
    requires HasSiteAtom(Corrected, recv)
    ensures SubstNode(Corrected, left, Call(Attribute(recv, m), args, kws)).found
    ensures var r := Link(Corrected, op, left, Call(Attribute(recv, m), args, kws)).replacement;
      && r.Call? && r.func.Attribute? && r.func.attr == m
      && r.func.value == SubstAtom(Corrected, left, recv).tree
      && (recv == Name(Placeholder) ==> r.func.value == left)
      && (left != Name(Placeholder) ==> r.func.value != recv)
      && r.args == args && r.keywords == kws
  {
    if left != Name(Placeholder) {
      ReachedAtomChanged(Corrected, left, recv);
    }
  }

  /** The test of tests/test.py:75 under the corrected revision. */
  lemma CorrectedAddTest()
    ensures Visit(Corrected, BinOp(Leaf("5"), RShift, UtilsCall("add2", [Leaf("1")]))).replacement
         == UtilsCall("add2", [Leaf("5"), Leaf("1")])
  {
    assert !HasSiteAtom(Corrected, Leaf("1"));
    assert !HasSiteNode(Corrected, UtilsCall("add2", [Leaf("1")]));
    CorrectedMethodCallTakesValue(RShift, Leaf("5"), Name("Utils"), "add2", [Leaf("1")], []);
    PipeLinksFoldedLeft(Corrected, Leaf("5"), RShift, UtilsCall("add2", [Leaf("1")]));
    assert [Leaf("5")] + [Leaf("1")] == [Leaf("5"), Leaf("1")];
  }

  /** The test of tests/test.py:95 under the corrected revision. */
  lemma CorrectedDivTest()
    ensures Visit(Corrected, BinOp(Leaf("5"), RShift, UtilsCall("div", [Name(Placeholder), Leaf("1")]))).replacement
         == UtilsCall("div", [Leaf("5"), Leaf("1")])
  {
    var slots := [Name(Placeholder), Leaf("1")];
    assert !ReceiverFirst(Corrected, Name("Utils"));
    assert SubstAtom(Corrected, Leaf("5"), slots[0]).found;
    assert SubstEach(Corrected, Leaf("5"), slots) == [Leaf("5"), Leaf("1")];
    assert SubstNode(Corrected, Leaf("5"), UtilsCall("div", slots))
        == Rewritten(UtilsCall("div", [Leaf("5"), Leaf("1")]), true);
  }

  /** As written, `2 >> Utils.div(1)` gives back `Utils.div(1)`
      (tests/test.py:79 expects a call that divides 1 by 2). */
  lemma DivOneDropsValue()
    ensures Visit(AsWritten, BinOp(Leaf("2"), RShift, UtilsCall("div", [Leaf("1")]))).replacement
         == UtilsCall("div", [Leaf("1")])
  {
  }

  /** The repair does not reconcile tests/test.py:79, which needs the value
      last (`Utils.div(1, 2)`): corrected, the value is prepended like for
      any `>>` call (line 125). */
  lemma CorrectedDivOneTakesValueFirst()
    ensures Visit(Corrected, BinOp(Leaf("2"), RShift, UtilsCall("div", [Leaf("1")]))).replacement
         == UtilsCall("div", [Leaf("2"), Leaf("1")])
  {
    assert !HasSiteAtom(Corrected, Leaf("1"));
    assert !HasSiteNode(Corrected, UtilsCall("div", [Leaf("1")]));
    CorrectedMethodCallTakesValue(RShift, Leaf("2"), Name("Utils"), "div", [Leaf("1")], []);
    PipeLinksFoldedLeft(Corrected, Leaf("2"), RShift, UtilsCall("div", [Leaf("1")]));
    assert [Leaf("2")] + [Leaf("1")] == [Leaf("2"), Leaf("1")];
  }

  // ---------------------------------------------------------------------
  // 2. Keyword arguments are never substituted: `handle_atom` receives the
  //    `keyword` node rather than its value (lines 79-82).

  /** As written, `d >> foo(**_)` becomes `foo(d, **_)`
      (tests/test.py:102 expects `foo(**d)`). */
  lemma KeywordPlaceholderIgnored()
    ensures Visit(AsWritten, BinOp(Leaf("d"), RShift, Call(Name("foo"), [], [Keyword(None, Name(Placeholder))])))
              .replacement
         == Call(Name("foo"), [Leaf("d")], [Keyword(None, Name(Placeholder))])
  {
    var kws := [Keyword(None, Name(Placeholder))];
    assert SubstKeywords(AsWritten, Leaf("d"), kws) == kws;
    assert !AnyKeywordFound(AsWritten, Leaf("d"), kws);
    assert SubstNode(AsWritten, Leaf("d"), Call(Name("foo"), [], kws)) == Rewritten(Call(Name("foo"), [], kws), false);
  }

  /** Corrected: a keyword value is a slot like a positional argument, in a
      plain call and in a method call whose receiver holds no placeholder;
      the keyword's name is kept. */
  lemma CorrectedKeywordValuesAreSlots(left: Expr, f: Expr, args: seq<Expr>, kws: seq<Keyword>)
    requires !(f.Attribute? && ReceiverFirst(Corrected, f.value))
    ensures var r := SubstNode(Corrected, left, Call(f, args, kws));
      && |r.tree.keywords| == |kws|
      && (forall i | 0 <= i < |kws| ::
            r.tree.keywords[i] == Keyword(kws[i].arg, SubstAtom(Corrected, left, kws[i].value).tree))
      && ((exists i | 0 <= i < |kws| :: DirectSlot(kws[i].value)) ==> r.found)
  {
    var r := SubstNode(Corrected, left, Call(f, args, kws));
    assert r.tree.keywords == SubstKeywords(Corrected, left, kws);
    forall i | 0 <= i < |kws|
      ensures r.tree.keywords[i] == Keyword(kws[i].arg, SubstAtom(Corrected, left, kws[i].value).tree)
    {
      assert r.tree.keywords[i] == SubstKeyword(Corrected, left, kws[i]).tree;
    }
    CallHandledIffDirectSlot(Corrected, left, Call(f, args, kws));
  }

  /** The test of line 102 under the corrected revision. */
  lemma CorrectedKeywordTest()
    ensures Visit(Corrected, BinOp(Leaf("d"), RShift, Call(Name("foo"), [], [Keyword(None, Name(Placeholder))])))
              .replacement
         == Call(Name("foo"), [], [Keyword(None, Leaf("d"))])
  {
    var kws := [Keyword(None, Name(Placeholder))];
    assert SubstKeyword(Corrected, Leaf("d"), kws[0]).found;
    assert SubstKeywords(Corrected, Leaf("d"), kws) == [Keyword(None, Leaf("d"))];
    assert AnyKeywordFound(Corrected, Leaf("d"), kws);
    assert SubstNode(Corrected, Leaf("d"), Call(Name("foo"), [], kws))
        == Rewritten(Call(Name("foo"), [], [Keyword(None, Leaf("d"))]), true);
  }

  // ---------------------------------------------------------------------
  // 3. Dictionary displays are not a kind `handle_node` knows (line 109).

  /** As written, any dictionary display on the right of a pipe is called
      with the piped value: `0 >> {'a': _}` becomes `{'a': _}(0)`
      (tests/test.py:149 expects `{'a': 0}`). */
  lemma DictIsCalled(op: Operator, left: Expr, keys: seq<Option<Expr>>, values: seq<Expr>)
    ensures Link(AsWritten, op, left, Dict(keys, values)).replacement == Call(Dict(keys, values), [left], [])
  {
  }

  /** Corrected: keys and values are slots, lengths and order are kept, and
      the display is the result, never called. */
  lemma CorrectedDictSlots(op: Operator, left: Expr, keys: seq<Option<Expr>>, values: seq<Expr>)
    ensures var r := Link(Corrected, op, left, Dict(keys, values)).replacement;
      && r.Dict? && |r.keys| == |keys| && |r.values| == |values|
      && (forall i | 0 <= i < |keys| ::
            r.keys[i] == if keys[i].None? then None else Some(SubstAtom(Corrected, left, keys[i].value).tree))
      && (forall i | 0 <= i < |values| :: r.values[i] == SubstAtom(Corrected, left, values[i]).tree)
  {
    var r := Link(Corrected, op, left, Dict(keys, values)).replacement;
    assert r == Dict(SubstKeys(Corrected, left, keys), SubstEach(Corrected, left, values));
    forall i | 0 <= i < |keys|
      ensures r.keys[i] == if keys[i].None? then None else Some(SubstAtom(Corrected, left, keys[i].value).tree)
    {
      assert r.keys[i] == SubstKey(Corrected, left, keys[i]);
    }
  }

  /** The tests of lines 149-150 under the corrected revision. */
  lemma CorrectedDictTests()
    ensures Visit(Corrected, BinOp(Leaf("0"), RShift, Dict([Some(Leaf("'a'"))], [Name(Placeholder)]))).replacement
         == Dict([Some(Leaf("'a'"))], [Leaf("0")])
    ensures Visit(Corrected, BinOp(Leaf("'a'"), RShift, Dict([Some(Name(Placeholder))], [Leaf("0")]))).replacement
         == Dict([Some(Leaf("'a'"))], [Leaf("0")])
  {
    CorrectedDictSlots(RShift, Leaf("0"), [Some(Leaf("'a'"))], [Name(Placeholder)]);
    CorrectedDictSlots(RShift, Leaf("'a'"), [Some(Name(Placeholder))], [Leaf("0")]);
  }
}
