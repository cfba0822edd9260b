/**
 * The parser for `expression_atom`, `expression` and
 * `conditional_statement` (grammar.js): a deterministic recursive descent
 * that reads an atom, then `(op atom)*` of the tier, and folds the chain to
 * the left. Every parse function states that the tree it returns is well
 * formed and spells exactly the tokens it consumed; the completeness lemmas
 * state that every well-formed tree is recovered from its own tokens.
 */
module ExpressionParser {
  import opened Wrappers
  import opened Lexical
  import opened Syntax
  import opened Chains

  /** `expression_atom` */
  function ParseAtom(ts: seq<Token>): (r: Option<Parsed<Atom>>)
    ensures r.Some? ==> WfAtom(r.value.tree) && FlattenAtom(r.value.tree) + r.value.rest == ts
    ensures r.Some? ==> |r.value.rest| < |ts|
    decreases |ts|, 0
  {
    if ts == [] then None
    else
      Cons(ts);
      var t := ts[0];
      if t.NameTok? then
        if !IsName(t.text) then None
        else if StartsWith(ts[1..], LParen) then
          Cons(ts[1..]);
          ParseCall(t.text, ts[1..][1..])
        else Some(Parsed(Var(t.text), ts[1..]))
      else if t.StringTok? then
        if !IsStringLit(t.text) then None else Some(Parsed(Str(t.text), ts[1..]))
      else if t.NumberTok? then
        if !IsNumber(t.text) then None else Some(Parsed(Num(t.text), ts[1..]))
      else if t == LParen then
        var p := ParseExpr(Statements, ts[1..]);
        if p.None? || !StartsWith(p.value.rest, RParen) then None
        else
          Cons(p.value.rest);
          ParenSpelling(p.value.tree, p.value.rest[1..]);
          Some(Parsed(Paren(p.value.tree), p.value.rest[1..]))
      else if t == Op(Sub) then
        var p := ParseAtom(ts[1..]);
        if p.None? then None
        else
          NegSpelling(p.value.tree, p.value.rest);
          Some(Parsed(Neg(p.value.tree), p.value.rest))
      else None
  }

  /** The `(op atom)*` that follows the first atom of a chain, as long as the operators belong to the tier. */
  function ParseLinks(tier: Tier, ts: seq<Token>): (r: Option<Parsed<seq<Link>>>)
    ensures r.Some? ==> LinksWf(r.value.tree, tier) && FlattenLinks(r.value.tree) + r.value.rest == ts
    ensures r.Some? ==> |r.value.rest| <= |ts| && !StartsWithOp(r.value.rest, tier)
    decreases |ts|, 0
  {
    if !StartsWithOp(ts, tier) then Some(Parsed([], ts))
    else
      var p1 := ParseAtom(ts[1..]);
      if p1.None? then None
      else
        var p2 := ParseLinks(tier, p1.value.rest);
        if p2.None? then None
        else
          var all := [Link(ts[0].op, p1.value.tree)] + p2.value.tree;
          assert all[0] == Link(ts[0].op, p1.value.tree) && all[1..] == p2.value.tree;
          Cons(ts);
          LinksSpelling(all, p2.value.rest);
          Some(Parsed(all, p2.value.rest))
  }

  /** `atom (op atom)*` over the tier's operators, read as far as it goes. */
  function ParseChain(tier: Tier, ts: seq<Token>): (r: Option<Parsed<Chain>>)
    ensures r.Some? ==> WfAtom(r.value.tree.head) && LinksWf(r.value.tree.links, tier)
    ensures r.Some? ==> FlattenChain(r.value.tree) + r.value.rest == ts
    ensures r.Some? ==> |r.value.rest| < |ts| && !StartsWithOp(r.value.rest, tier)
    decreases |ts|, 1
  {
    var p1 := ParseAtom(ts);
    if p1.None? then None
    else
      var p2 := ParseLinks(tier, p1.value.rest);
      if p2.None? then None
      else
        var c := Chain(p1.value.tree, p2.value.tree);
        ChainSpelling(c, p2.value.rest);
        Some(Parsed(c, p2.value.rest))
  }

  /**
   * `expression` (tier Statements) or `conditional_statement` (tier
   * Conditionals): the chain folded into a left-leaning tree.
   */
  function ParseExpr(tier: Tier, ts: seq<Token>): (r: Option<Parsed<Expr>>)
    ensures r.Some? ==> WfExpr(r.value.tree, tier) && FlattenExpr(r.value.tree) + r.value.rest == ts
    ensures r.Some? ==> |r.value.rest| < |ts| && !StartsWithOp(r.value.rest, tier)
    decreases |ts|, 2
  {
    var p := ParseChain(tier, ts);
    if p.None? then None
    else
      BuildRoundTrip(p.value.tree);
      BuildWf(p.value.tree, tier);
      Some(Parsed(Build(p.value.tree), p.value.rest))
  }

  /** The optional first argument of a call: absent exactly when `,` or `)` comes next. */
  function ParseFirst(ts: seq<Token>): (r: Option<Parsed<Option<Expr>>>)
    ensures r.Some? ==> (r.value.tree.Some? ==> WfExpr(r.value.tree.value, Statements))
    ensures r.Some? ==> FlattenFirst(r.value.tree) + r.value.rest == ts && |r.value.rest| <= |ts|
    decreases |ts|, 3
  {
    if StartsWith(ts, Comma) || StartsWith(ts, RParen) then Some(Parsed(None, ts))
    else
      var p := ParseExpr(Statements, ts);
      if p.None? then None else Some(Parsed(Some(p.value.tree), p.value.rest))
  }

  /** `repeat(seq(",", expression))` */
  function ParseMore(ts: seq<Token>): (r: Option<Parsed<seq<Expr>>>)
    ensures r.Some? ==> forall i :: 0 <= i < |r.value.tree| ==> WfExpr(r.value.tree[i], Statements)
    ensures r.Some? ==> FlattenMore(r.value.tree) + r.value.rest == ts
    ensures r.Some? ==> |r.value.rest| <= |ts| && !StartsWith(r.value.rest, Comma)
    decreases |ts|, 0
  {
    if !StartsWith(ts, Comma) then Some(Parsed([], ts))
    else
      var p1 := ParseExpr(Statements, ts[1..]);
      if p1.None? then None
      else
        var p2 := ParseMore(p1.value.rest);
        if p2.None? then None
        else
          var all := [p1.value.tree] + p2.value.tree;
          assert all[0] == p1.value.tree && all[1..] == p2.value.tree;
          Cons(ts);
          MoreSpelling(all, p2.value.rest);
          Some(Parsed(all, p2.value.rest))
  }

  /** `function_call`, after its name and opening parenthesis. */
  function ParseCall(f: string, ts: seq<Token>): (r: Option<Parsed<Atom>>)
    requires IsName(f)
    ensures r.Some? ==> r.value.tree.Call? && r.value.tree.callee == f && WfAtom(r.value.tree)
    ensures r.Some? ==> FlattenAtom(r.value.tree) + r.value.rest == [NameTok(f)] + ([LParen] + ts)
    ensures r.Some? ==> |r.value.rest| < |ts|
    decreases |ts|, 4
  {
    var p1 := ParseFirst(ts);
    if p1.None? then None
    else
      var p2 := ParseMore(p1.value.rest);
      if p2.None? || !StartsWith(p2.value.rest, RParen) then None
      else
        var rest := p2.value.rest[1..];
        Cons(p2.value.rest);
        CallSpelling(f, p1.value.tree, p2.value.tree, rest);
        Some(Parsed(Call(f, p1.value.tree, p2.value.tree), rest))
  }

  // ---------------------------------------------------------------------
  // Token spellings, grouped the way the parser reads them
  // ---------------------------------------------------------------------

  lemma ParenSpelling(e: Expr, rest: seq<Token>)
    ensures FlattenAtom(Paren(e)) + rest == [LParen] + (FlattenExpr(e) + ([RParen] + rest))
  {
    Associative([LParen] + FlattenExpr(e), [RParen], rest);
    Associative([LParen], FlattenExpr(e), [RParen] + rest);
  }

  lemma NegSpelling(b: Atom, rest: seq<Token>)
    ensures FlattenAtom(Neg(b)) + rest == [Op(Sub)] + (FlattenAtom(b) + rest)
  {
    Associative([Op(Sub)], FlattenAtom(b), rest);
  }

  lemma CallSpelling(f: string, first: Option<Expr>, more: seq<Expr>, rest: seq<Token>)
    ensures FlattenAtom(Call(f, first, more)) + rest
         == [NameTok(f)] + ([LParen] + (FlattenFirst(first) + (FlattenMore(more) + ([RParen] + rest))))
  {
    var open := [NameTok(f), LParen];
    assert open == [NameTok(f)] + [LParen];
    var ff := FlattenFirst(first);
    var fm := FlattenMore(more);
    Associative(open + ff + fm, [RParen], rest);
    Associative(open + ff, fm, [RParen] + rest);
    Associative(open, ff, fm + ([RParen] + rest));
    Associative([NameTok(f)], [LParen], ff + (fm + ([RParen] + rest)));
  }

  lemma MoreSpelling(es: seq<Expr>, rest: seq<Token>)
    requires es != []
    ensures FlattenMore(es) + rest == [Comma] + (FlattenExpr(es[0]) + (FlattenMore(es[1..]) + rest))
  {
    Associative([Comma] + FlattenExpr(es[0]), FlattenMore(es[1..]), rest);
    Associative([Comma], FlattenExpr(es[0]), FlattenMore(es[1..]) + rest);
  }

  lemma LinksSpelling(links: seq<Link>, rest: seq<Token>)
    requires links != []
    ensures FlattenLinks(links) + rest
         == [Op(links[0].op)] + (FlattenAtom(links[0].operand) + (FlattenLinks(links[1..]) + rest))
  {
    var head := [Op(links[0].op)];
    Associative(head + FlattenAtom(links[0].operand), FlattenLinks(links[1..]), rest);
    Associative(head, FlattenAtom(links[0].operand), FlattenLinks(links[1..]) + rest);
  }

  lemma ChainSpelling(c: Chain, rest: seq<Token>)
    ensures FlattenChain(c) + rest == FlattenAtom(c.head) + (FlattenLinks(c.links) + rest)
  {
    Associative(FlattenAtom(c.head), FlattenLinks(c.links), rest);
  }

  // ---------------------------------------------------------------------
  // Completeness
  // ---------------------------------------------------------------------

  /** The tokens that can open an atom. */
  predicate OpensAtom(t: Token)
  {
    t.NameTok? || t.StringTok? || t.NumberTok? || t == LParen || t == Op(Sub)
  }

  lemma {:induction false} AtomOpens(a: Atom)
    ensures OpensAtom(FlattenAtom(a)[0])
  {
  }

  lemma {:induction false} ExprOpens(e: Expr)
    ensures OpensAtom(FlattenExpr(e)[0])
  {
    match e
    case Leaf(a) => AtomOpens(a);
    case Binary(l, op, r) => ExprOpens(l);
  }

  /**
   * Every well-formed atom is read back from its own tokens, whatever
   * follows that is not an opening parenthesis.
   */
  lemma {:induction false} AtomComplete(a: Atom, rest: seq<Token>)
    requires WfAtom(a) && !StartsWith(rest, LParen)
    ensures ParseAtom(FlattenAtom(a) + rest) == Some(Parsed(a, rest))
    decreases |FlattenAtom(a)|, 1
  {
    match a
    case Var(x) =>
      DropOne(NameTok(x), rest);
    case Str(s) =>
      DropOne(StringTok(s), rest);
    case Num(d) =>
      DropOne(NumberTok(d), rest);
    case Paren(e) =>
      ParenComplete(e, rest);
    case Neg(b) =>
      NegComplete(b, rest);
    case Call(f, first, more) =>
      var inner := FlattenFirst(first) + (FlattenMore(more) + ([RParen] + rest));
      CallSpelling(f, first, more, rest);
      DropOne(NameTok(f), [LParen] + inner);
      DropOne(LParen, inner);
      CallComplete(f, first, more, rest);
  }

  lemma {:induction false} ParenComplete(e: Expr, rest: seq<Token>)
    requires WfAtom(Paren(e))
    ensures ParseAtom(FlattenAtom(Paren(e)) + rest) == Some(Parsed(Paren(e), rest))
    decreases |FlattenAtom(Paren(e))|, 0
  {
    ParenSpelling(e, rest);
    DropOne(LParen, FlattenExpr(e) + ([RParen] + rest));
    DropOne(RParen, rest);
    ExprComplete(Statements, e, [RParen] + rest);
  }

  lemma {:induction false} NegComplete(b: Atom, rest: seq<Token>)
    requires WfAtom(Neg(b)) && !StartsWith(rest, LParen)
    ensures ParseAtom(FlattenAtom(Neg(b)) + rest) == Some(Parsed(Neg(b), rest))
    decreases |FlattenAtom(Neg(b))|, 0
  {
    NegSpelling(b, rest);
    DropOne(Op(Sub), FlattenAtom(b) + rest);
    AtomComplete(b, rest);
  }

  lemma {:induction false} CallComplete(f: string, first: Option<Expr>, more: seq<Expr>, rest: seq<Token>)
    requires WfAtom(Call(f, first, more))
    ensures ParseCall(f, FlattenFirst(first) + (FlattenMore(more) + ([RParen] + rest)))
            == Some(Parsed(Call(f, first, more), rest))
    decreases |FlattenAtom(Call(f, first, more))|, 0
  {
    var close := [RParen] + rest;
    var tail := FlattenMore(more) + close;
    MoreOpens(more, close);
    FirstComplete(first, tail);
    MoreComplete(more, close);
    DropOne(RParen, rest);
  }

  lemma {:induction false} MoreOpens(es: seq<Expr>, rest: seq<Token>)
    requires StartsWith(rest, RParen)
    ensures StartsWith(FlattenMore(es) + rest, Comma) || StartsWith(FlattenMore(es) + rest, RParen)
  {
  }

  lemma {:induction false} FirstComplete(first: Option<Expr>, rest: seq<Token>)
    requires first.Some? ==> WfExpr(first.value, Statements)
    requires StartsWith(rest, Comma) || StartsWith(rest, RParen)
    ensures ParseFirst(FlattenFirst(first) + rest) == Some(Parsed(first, rest))
    decreases |FlattenFirst(first)|, 4
  {
    match first
    case None =>
      assert FlattenFirst(first) + rest == rest;
    case Some(e) =>
      ExprOpens(e);
      ExprComplete(Statements, e, rest);
  }

  lemma {:induction false} MoreComplete(es: seq<Expr>, rest: seq<Token>)
    requires forall i :: 0 <= i < |es| ==> WfExpr(es[i], Statements)
    requires StartsWith(rest, RParen)
    ensures ParseMore(FlattenMore(es) + rest) == Some(Parsed(es, rest))
    decreases |FlattenMore(es)|, 0
  {
    if es == [] {
      assert FlattenMore(es) + rest == rest;
    } else {
      var tail := FlattenMore(es[1..]) + rest;
      MoreSpelling(es, rest);
      DropOne(Comma, FlattenExpr(es[0]) + tail);
      MoreOpens(es[1..], rest);
      ExprComplete(Statements, es[0], tail);
      MoreComplete(es[1..], rest);
      Cons(es);
    }
  }

  lemma {:induction false} LinksComplete(tier: Tier, links: seq<Link>, rest: seq<Token>)
    requires LinksWf(links, tier) && !StartsWith(rest, LParen) && !StartsWithOp(rest, tier)
    ensures ParseLinks(tier, FlattenLinks(links) + rest) == Some(Parsed(links, rest))
    decreases |FlattenLinks(links)|, 0
  {
    if links == [] {
      assert FlattenLinks(links) + rest == rest;
    } else {
      var tail := FlattenLinks(links[1..]) + rest;
      var ts := FlattenLinks(links) + rest;
      LinksSpelling(links, rest);
      DropOne(Op(links[0].op), FlattenAtom(links[0].operand) + tail);
      assert !StartsWith(tail, LParen);
      AtomComplete(links[0].operand, tail);
      LinksComplete(tier, links[1..], rest);
      assert StartsWithOp(ts, tier);
      ParseLinksStep(tier, ts, links[0].operand, tail, links[1..], rest);
      assert [Link(links[0].op, links[0].operand)] + links[1..] == links;
    }
  }

  /** One round of `ParseLinks`: an operator of the tier, an atom, then the remaining links. */
  lemma ParseLinksStep(tier: Tier, ts: seq<Token>, a: Atom, r1: seq<Token>, links: seq<Link>, r2: seq<Token>)
    requires StartsWithOp(ts, tier)
    requires ParseAtom(ts[1..]) == Some(Parsed(a, r1))
    requires ParseLinks(tier, r1) == Some(Parsed(links, r2))
    ensures ParseLinks(tier, ts) == Some(Parsed([Link(ts[0].op, a)] + links, r2))
  {
  }

  lemma {:induction false} ChainComplete(tier: Tier, c: Chain, rest: seq<Token>)
    requires WfAtom(c.head) && LinksWf(c.links, tier)
    requires !StartsWith(rest, LParen) && !StartsWithOp(rest, tier)
    ensures ParseChain(tier, FlattenChain(c) + rest) == Some(Parsed(c, rest))
    decreases |FlattenChain(c)|, 2
  {
    var tail := FlattenLinks(c.links) + rest;
    ChainSpelling(c, rest);
    assert !StartsWith(tail, LParen);
    AtomComplete(c.head, tail);
    LinksComplete(tier, c.links, rest);
  }

  /**
   * Every well-formed expression (or conditional) is read back from its
   * own tokens, whatever follows that neither continues the chain nor
   * opens a parenthesis.
   */
  lemma {:induction false} ExprComplete(tier: Tier, e: Expr, rest: seq<Token>)
    requires WfExpr(e, tier) && !StartsWith(rest, LParen) && !StartsWithOp(rest, tier)
    ensures ParseExpr(tier, FlattenExpr(e) + rest) == Some(Parsed(e, rest))
    decreases |FlattenExpr(e)|, 3
  {
    ChainsAreLeftLeaningTrees(Spine(e), e);
    FlattenSpine(e);
    SpineWf(e, tier);
    ChainComplete(tier, Spine(e), rest);
  }

  // ---------------------------------------------------------------------
  // Properties of the single-tier grammars
  // ---------------------------------------------------------------------

  /**
   * All operators of a tier share one left-associative level: whatever
   * grouping a tree of the tier has, its tokens are read back as the
   * left-leaning tree of its chain.
   */
  lemma ParseGroupsLeft(tier: Tier, e: Expr, rest: seq<Token>)
    requires TierExpr(e, tier) && !StartsWith(rest, LParen) && !StartsWithOp(rest, tier)
    ensures ParseExpr(tier, FlattenExpr(e) + rest) == Some(Parsed(Build(Spine(e)), rest))
  {
    FlattenSpine(e);
    SpineWf(e, tier);
    ChainComplete(tier, Spine(e), rest);
  }

  /** `2 + 3 * 4` is `(2 + 3) * 4`, never the arithmetic grouping `2 + (3 * 4)`. */
  lemma OperatorsShareOneLevel()
    ensures ParseExpr(Statements, [NumberTok("2"), Op(Add), NumberTok("3"), Op(Mul), NumberTok("4")])
         == Some(Parsed(Binary(Binary(Leaf(Num("2")), Add, Leaf(Num("3"))), Mul, Leaf(Num("4"))), []))
  {
    var arithmetic := Binary(Leaf(Num("2")), Add, Binary(Leaf(Num("3")), Mul, Leaf(Num("4"))));
    assert FlattenExpr(arithmetic) + [] == [NumberTok("2"), Op(Add), NumberTok("3"), Op(Mul), NumberTok("4")];
    ParseGroupsLeft(Statements, arithmetic, []);
    assert Spine(arithmetic) == Chain(Num("2"), [Link(Add, Num("3")), Link(Mul, Num("4"))]);
  }

  /** Unary minus nests to the right (`- - 5` is `-(-(5))`) and binds tighter than any binary operator. */
  lemma UnaryMinusNestsAndBindsTightest()
    ensures ParseExpr(Statements, [Op(Sub), Op(Sub), NumberTok("5")])
         == Some(Parsed(Leaf(Neg(Neg(Num("5")))), []))
    ensures ParseExpr(Statements, [Op(Sub), NameTok("a"), Op(Sub), NameTok("b")])
         == Some(Parsed(Binary(Leaf(Neg(Var("a"))), Sub, Leaf(Var("b"))), []))
  {
    var e1 := Leaf(Neg(Neg(Num("5"))));
    assert FlattenExpr(e1) + [] == [Op(Sub), Op(Sub), NumberTok("5")];
    ExprComplete(Statements, e1, []);
    var e2 := Binary(Leaf(Neg(Var("a"))), Sub, Leaf(Var("b")));
    assert FlattenExpr(e2) + [] == [Op(Sub), NameTok("a"), Op(Sub), NameTok("b")];
    ExprComplete(Statements, e2, []);
  }

  /**
   * The first argument of a call is optional on its own: `f()`, `f(a)`,
   * `f(, a)` and `f(a, b)` are all calls.
   */
  lemma FirstArgumentOptionalOnItsOwn()
    ensures ParseAtom([NameTok("f"), LParen, Comma, NameTok("a"), RParen])
         == Some(Parsed(Call("f", None, [Leaf(Var("a"))]), []))
    ensures ParseAtom([NameTok("f"), LParen, RParen]) == Some(Parsed(Call("f", None, []), []))
  {
    var c1 := Call("f", None, [Leaf(Var("a"))]);
    assert FlattenAtom(c1) + [] == [NameTok("f"), LParen, Comma, NameTok("a"), RParen];
    AtomComplete(c1, []);
    var c2 := Call("f", None, []);
    assert FlattenAtom(c2) + [] == [NameTok("f"), LParen, RParen];
    AtomComplete(c2, []);
  }

  /**
   * The leaves of a conditional are expression atoms, whose parentheses
   * hold an arithmetic expression: a parenthesised comparison is not an
   * atom.
   */
  lemma ParenthesesHoldNoConditional(c: Expr, rest: seq<Token>)
    requires TierExpr(c, Conditionals) && c.Binary?
    ensures ParseAtom([LParen] + (FlattenExpr(c) + ([RParen] + rest))) == None
  {
    var close := [RParen] + rest;
    var ts := [LParen] + (FlattenExpr(c) + close);
    DropOne(LParen, FlattenExpr(c) + close);
    var tail := ComparisonCutsArithmetic(c, close);
    ParenAtomOf(ts, Build(Chain(Spine(c).head, [])), tail);
  }

  /**
   * Read as an arithmetic expression, a comparison stops after its first
   * operand, in front of a comparison operator.
   */
  lemma ComparisonCutsArithmetic(c: Expr, close: seq<Token>) returns (tail: seq<Token>)
    requires TierExpr(c, Conditionals) && c.Binary?
    ensures ParseExpr(Statements, FlattenExpr(c) + close) == Some(Parsed(Build(Chain(Spine(c).head, [])), tail))
    ensures !StartsWith(tail, RParen)
  {
    var ch := Spine(c);
    FlattenSpine(c);
    SpineWf(c, Conditionals);
    tail := FlattenLinks(ch.links) + close;
    ChainSpelling(ch, close);
    LinksSpelling(ch.links, close);
    AtomComplete(ch.head, tail);
    assert ParseLinks(Statements, tail) == Some(Parsed([], tail));
    assert ParseChain(Statements, FlattenAtom(ch.head) + tail) == Some(Parsed(Chain(ch.head, []), tail));
  }

  /** A `(` whose expression is not followed by `)` makes no atom. */
  lemma ParenAtomOf(ts: seq<Token>, e: Expr, r: seq<Token>)
    requires StartsWith(ts, LParen)
    requires ParseExpr(Statements, ts[1..]) == Some(Parsed(e, r))
    requires !StartsWith(r, RParen)
    ensures ParseAtom(ts) == None
  {
  }

}
