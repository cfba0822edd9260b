/**
 * The single left-associative tier shared by expressions and conditionals
 * (`prec.left(1, seq(x, op, x))` in grammar.js): an operand chain
 * `atom (op atom)*`, the left fold that turns it into a tree, and the spine
 * that reads any tree back as a chain.
 */
module Chains {
  import opened Syntax

  /** One `op atom` step of a chain. */
  datatype Link = Link(op: BinOp, operand: Atom)

  /** `atom (op atom)*` */
  datatype Chain = Chain(head: Atom, links: seq<Link>)

  predicate LinksWf(links: seq<Link>, tier: Tier)
  {
    forall i :: 0 <= i < |links| ==> InTier(links[i].op, tier) && WfAtom(links[i].operand)
  }

  function FlattenLinks(links: seq<Link>): seq<Token>
  {
    if links == [] then [] else [Op(links[0].op)] + FlattenAtom(links[0].operand) + FlattenLinks(links[1..])
  }

  function FlattenChain(c: Chain): seq<Token>
  {
    FlattenAtom(c.head) + FlattenLinks(c.links)
  }

  /** Folds the links onto `acc` from the left: `((acc op1 a1) op2 a2) ...`. */
  function BuildLeft(acc: Expr, links: seq<Link>): Expr
    decreases |links|
  {
    if links == [] then acc
    else BuildLeft(Binary(acc, links[0].op, Leaf(links[0].operand)), links[1..])
  }

  /** The tree the tier builds for a chain. */
  function Build(c: Chain): Expr
  {
    BuildLeft(Leaf(c.head), c.links)
  }

  /** Reads any tree as the chain of its atoms and operators, left to right. */
  function Spine(e: Expr): Chain
  {
    match e
    case Leaf(a) => Chain(a, [])
    case Binary(l, op, r) =>
      var left := Spine(l);
      var right := Spine(r);
      Chain(left.head, left.links + [Link(op, right.head)] + right.links)
  }

  lemma {:induction false} FlattenLinksAppend(xs: seq<Link>, ys: seq<Link>)
    ensures FlattenLinks(xs + ys) == FlattenLinks(xs) + FlattenLinks(ys)
  {
    if xs == [] {
      assert xs + ys == ys;
    } else {
      assert (xs + ys)[0] == xs[0];
      assert (xs + ys)[1..] == xs[1..] + ys;
      FlattenLinksAppend(xs[1..], ys);
      var step := [Op(xs[0].op)] + FlattenAtom(xs[0].operand);
      calc {
        FlattenLinks(xs + ys);
        step + FlattenLinks(xs[1..] + ys);
        step + (FlattenLinks(xs[1..]) + FlattenLinks(ys));
        (step + FlattenLinks(xs[1..])) + FlattenLinks(ys);
      }
    }
  }

  lemma {:induction false} FlattenBuildLeft(acc: Expr, links: seq<Link>)
    ensures FlattenExpr(BuildLeft(acc, links)) == FlattenExpr(acc) + FlattenLinks(links)
    decreases |links|
  {
    if links != [] {
      FlattenBuildLeft(Binary(acc, links[0].op, Leaf(links[0].operand)), links[1..]);
    }
  }

  /**
   * Building the tree of a chain loses no token: flattening it gives back
   * exactly the chain's token sequence.
   */
  lemma BuildRoundTrip(c: Chain)
    ensures FlattenExpr(Build(c)) == FlattenChain(c)
  {
    FlattenBuildLeft(Leaf(c.head), c.links);
  }

  /** Joining two chains with an operator spells the two chains around that operator. */
  lemma FlattenJoin(left: Chain, op: BinOp, right: Chain)
    ensures FlattenChain(Chain(left.head, left.links + [Link(op, right.head)] + right.links))
         == FlattenChain(left) + [Op(op)] + FlattenChain(right)
  {
    var mid := [Link(op, right.head)];
    FlattenLinksAppend(left.links + mid, right.links);
    FlattenLinksAppend(left.links, mid);
    assert FlattenLinks(mid) == [Op(op)] + FlattenAtom(right.head) by {
      assert mid[1..] == [];
    }
    var a, b, o := FlattenAtom(left.head), FlattenLinks(left.links), [Op(op)];
    var c, d := FlattenAtom(right.head), FlattenLinks(right.links);
    Associative(b, o + c, d);
    Associative(o, c, d);
    Associative(a + b, o, c + d);
    Associative(a, b, o + (c + d));
  }

  /** The chain read off any tree spells the same tokens as the tree. */
  lemma {:induction false} FlattenSpine(e: Expr)
    ensures FlattenChain(Spine(e)) == FlattenExpr(e)
  {
    match e
    case Leaf(a) =>
    case Binary(l, op, r) =>
      FlattenSpine(l);
      FlattenSpine(r);
      FlattenJoin(Spine(l), op, Spine(r));
  }

  lemma {:induction false} SpineOfBuildLeft(acc: Expr, links: seq<Link>)
    ensures Spine(BuildLeft(acc, links)) == Chain(Spine(acc).head, Spine(acc).links + links)
    decreases |links|
  {
    if links != [] {
      var next := Binary(acc, links[0].op, Leaf(links[0].operand));
      SpineOfBuildLeft(next, links[1..]);
      assert Spine(acc).links + [links[0]] + links[1..] == Spine(acc).links + links;
    }
  }

  lemma {:induction false} BuildLeftLeans(acc: Expr, links: seq<Link>)
    requires LeftLeaning(acc)
    ensures LeftLeaning(BuildLeft(acc, links))
    decreases |links|
  {
    if links != [] {
      BuildLeftLeans(Binary(acc, links[0].op, Leaf(links[0].operand)), links[1..]);
    }
  }

  lemma {:induction false} BuildLeftOfSpine(e: Expr)
    requires LeftLeaning(e)
    ensures Build(Spine(e)) == e
  {
    match e
    case Leaf(_) =>
    case Binary(l, op, r) =>
      BuildLeftOfSpine(l);
      var left := Spine(l);
      var mid := [Link(op, r.atom)];
      assert Spine(e) == Chain(left.head, left.links + mid);
      BuildLeftAppend(Leaf(left.head), left.links, mid);
      assert BuildLeft(l, mid) == BuildLeft(Binary(l, op, r), []);
  }

  lemma {:induction false} BuildLeftAppend(acc: Expr, xs: seq<Link>, ys: seq<Link>)
    ensures BuildLeft(acc, xs + ys) == BuildLeft(BuildLeft(acc, xs), ys)
    decreases |xs|
  {
    if xs == [] {
      assert xs + ys == ys;
    } else {
      assert (xs + ys)[0] == xs[0];
      assert (xs + ys)[1..] == xs[1..] + ys;
      BuildLeftAppend(Binary(acc, xs[0].op, Leaf(xs[0].operand)), xs[1..], ys);
    }
  }

  /**
   * Chains and left-leaning trees are in one-to-one correspondence: the
   * tree built from a chain is left-leaning and reads back as that chain,
   * and every left-leaning tree is the tree built from its spine.
   */
  lemma ChainsAreLeftLeaningTrees(c: Chain, e: Expr)
    ensures LeftLeaning(Build(c)) && Spine(Build(c)) == c
    ensures LeftLeaning(e) ==> Build(Spine(e)) == e
  {
    BuildLeftLeans(Leaf(c.head), c.links);
    SpineOfBuildLeft(Leaf(c.head), c.links);
    if LeftLeaning(e) {
      BuildLeftOfSpine(e);
    }
  }

  lemma {:induction false} BuildLeftWf(acc: Expr, links: seq<Link>, tier: Tier)
    requires WfExpr(acc, tier) && LinksWf(links, tier)
    ensures WfExpr(BuildLeft(acc, links), tier)
    decreases |links|
  {
    if links != [] {
      BuildLeftWf(Binary(acc, links[0].op, Leaf(links[0].operand)), links[1..], tier);
    }
  }

  /** The tree of a chain of the tier is a well-formed expression of that tier. */
  lemma BuildWf(c: Chain, tier: Tier)
    requires WfAtom(c.head) && LinksWf(c.links, tier)
    ensures WfExpr(Build(c), tier)
  {
    BuildLeftWf(Leaf(c.head), c.links, tier);
  }

  /** The spine of a tree of the tier has well-formed atoms and the tier's operators only. */
  lemma {:induction false} SpineWf(e: Expr, tier: Tier)
    requires TierExpr(e, tier)
    ensures WfAtom(Spine(e).head) && LinksWf(Spine(e).links, tier)
  {
    match e
    case Leaf(_) =>
    case Binary(l, op, r) =>
      SpineWf(l, tier);
      SpineWf(r, tier);
  }
}
