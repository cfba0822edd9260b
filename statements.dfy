/**
 * The parser for `statement_or_expression`, `variable_assignment`,
 * `if_statement` and `return_statment` (grammar.js), with the same two
 * guarantees as the expression parser: what it returns is well formed and
 * spells exactly the tokens consumed, and every well-formed statement is
 * read back from its own tokens.
 */
module StatementParser {
  import opened Wrappers
  import opened Lexical
  import opened Syntax
  import opened Chains
  import opened ExpressionParser

  /** An optional `return_statment`: `RETURN expression ;`. */
  function ParseReturn(ts: seq<Token>): (r: Option<Parsed<Option<Expr>>>)
    ensures r.Some? ==> WfReturn(r.value.tree) && FlattenReturn(r.value.tree) + r.value.rest == ts
    ensures r.Some? ==> |r.value.rest| <= |ts|
  {
    if !StartsWith(ts, ReturnKw) then Some(Parsed(None, ts))
    else
      var p := ParseExpr(Statements, ts[1..]);
      if p.None? || !StartsWith(p.value.rest, Semicolon) then None
      else
        var rest := p.value.rest[1..];
        Cons(ts);
        Cons(p.value.rest);
        ReturnSpelling(p.value.tree, rest);
        Some(Parsed(Some(p.value.tree), rest))
  }

  /** `statement_or_expression`: an assignment `name = expression ;` or an IF. */
  function ParseStmt(ts: seq<Token>): (r: Option<Parsed<Stmt>>)
    ensures r.Some? ==> WfStmt(r.value.tree) && FlattenStmt(r.value.tree) + r.value.rest == ts
    ensures r.Some? ==> |r.value.rest| < |ts|
    decreases |ts|, 1
  {
    if ts == [] then None
    else if ts[0].NameTok? then
      var x := ts[0].text;
      var t1 := ts[1..];
      if !IsName(x) || !StartsWith(t1, Op(Eq)) then None
      else
        var p := ParseExpr(Statements, t1[1..]);
        if p.None? || !StartsWith(p.value.rest, Semicolon) then None
        else
          var rest := p.value.rest[1..];
          Cons(ts);
          Cons(t1);
          Cons(p.value.rest);
          AssignSpelling(x, p.value.tree, rest);
          Some(Parsed(Assign(x, p.value.tree), rest))
    else if ts[0] == IfKw then
      Cons(ts);
      ParseIf(ts[1..])
    else None
  }

  /** `if_statement` after its `IF`: condition, `THEN`, statements, optional RETURN, optional ELSE, `END`. */
  function ParseIf(ts: seq<Token>): (r: Option<Parsed<Stmt>>)
    ensures r.Some? ==> WfStmt(r.value.tree) && FlattenStmt(r.value.tree) + r.value.rest == [IfKw] + ts
    ensures r.Some? ==> |r.value.rest| < |ts|
    decreases |ts|, 3
  {
    var p1 := ParseExpr(Conditionals, ts);
    if p1.None? || !StartsWith(p1.value.rest, ThenKw) then None
    else
      var p2 := ParseStmts(p1.value.rest[1..]);
      if p2.None? then None
      else
        var p3 := ParseReturn(p2.value.rest);
        if p3.None? then None
        else
          var p4 := ParseElse(p3.value.rest);
          if p4.None? || !StartsWith(p4.value.rest, EndKw) then None
          else
            var s := If(p1.value.tree, p2.value.tree, p3.value.tree, p4.value.tree);
            var rest := p4.value.rest[1..];
            Cons(p4.value.rest);
            Cons(p1.value.rest);
            IfSpelling(s, rest);
            Some(Parsed(s, rest))
  }

  /** `optional(repeat(statement_or_expression))`: statements as long as one can start. */
  function ParseStmts(ts: seq<Token>): (r: Option<Parsed<seq<Stmt>>>)
    ensures r.Some? ==> WfStmts(r.value.tree) && FlattenStmts(r.value.tree) + r.value.rest == ts
    ensures r.Some? ==> |r.value.rest| <= |ts| && !StartsWithStmt(r.value.rest)
    decreases |ts|, 2
  {
    if !StartsWithStmt(ts) then Some(Parsed([], ts))
    else
      var p1 := ParseStmt(ts);
      if p1.None? then None
      else
        var p2 := ParseStmts(p1.value.rest);
        if p2.None? then None
        else
          var all := [p1.value.tree] + p2.value.tree;
          assert all[0] == p1.value.tree && all[1..] == p2.value.tree;
          StmtsSpelling(all, p2.value.rest);
          Some(Parsed(all, p2.value.rest))
  }

  /** `optional($.statement_or_expression)`: at most one statement. */
  function ParseOptStmt(ts: seq<Token>): (r: Option<Parsed<Option<Stmt>>>)
    ensures r.Some? ==> (r.value.tree.Some? ==> WfStmt(r.value.tree.value))
    ensures r.Some? ==> FlattenOptStmt(r.value.tree) + r.value.rest == ts && |r.value.rest| <= |ts|
    decreases |ts|, 2
  {
    if !StartsWithStmt(ts) then Some(Parsed(None, ts))
    else
      var p := ParseStmt(ts);
      if p.None? then None else Some(Parsed(Some(p.value.tree), p.value.rest))
  }

  /** The optional `ELSE` part: at most one statement and an optional RETURN. */
  function ParseElse(ts: seq<Token>): (r: Option<Parsed<Option<ElseBranch>>>)
    ensures r.Some? && r.value.tree.Some? ==> WfElse(r.value.tree.value)
    ensures r.Some? ==> FlattenElse(r.value.tree) + r.value.rest == ts && |r.value.rest| <= |ts|
    decreases |ts|, 0
  {
    if !StartsWith(ts, ElseKw) then Some(Parsed(None, ts))
    else
      var p1 := ParseOptStmt(ts[1..]);
      if p1.None? then None
      else
        var p2 := ParseReturn(p1.value.rest);
        if p2.None? then None
        else
          var els := ElseBranch(p1.value.tree, p2.value.tree);
          ElseSpelling(els, p2.value.rest);
          Cons(ts);
          Some(Parsed(Some(els), p2.value.rest))
  }

  // ---------------------------------------------------------------------
  // Token spellings, grouped the way the parser reads them
  // ---------------------------------------------------------------------

  lemma ReturnSpelling(e: Expr, rest: seq<Token>)
    ensures FlattenReturn(Some(e)) + rest == [ReturnKw] + (FlattenExpr(e) + ([Semicolon] + rest))
  {
    Associative([ReturnKw] + FlattenExpr(e), [Semicolon], rest);
    Associative([ReturnKw], FlattenExpr(e), [Semicolon] + rest);
  }

  lemma AssignSpelling(x: string, e: Expr, rest: seq<Token>)
    ensures FlattenStmt(Assign(x, e)) + rest == [NameTok(x)] + ([Op(Eq)] + (FlattenExpr(e) + ([Semicolon] + rest)))
  {
    var lhs := [NameTok(x), Op(Eq)];
    assert lhs == [NameTok(x)] + [Op(Eq)];
    Associative(lhs + FlattenExpr(e), [Semicolon], rest);
    Associative(lhs, FlattenExpr(e), [Semicolon] + rest);
    Associative([NameTok(x)], [Op(Eq)], FlattenExpr(e) + ([Semicolon] + rest));
  }

  /** What follows the condition of an IF statement, up to and including `rest`. */
  function IfTail(s: Stmt, rest: seq<Token>): (ts: seq<Token>)
    requires s.If?
    ensures StartsWith(ts, ThenKw)
  {
    [ThenKw] + (FlattenStmts(s.thenBody) + (FlattenReturn(s.thenReturn) + (FlattenElse(s.elseBranch) + ([EndKw] + rest))))
  }

  lemma IfSpelling(s: Stmt, rest: seq<Token>)
    requires s.If?
    ensures FlattenStmt(s) + rest == [IfKw] + (FlattenExpr(s.cond) + IfTail(s, rest))
  {
    var els := FlattenElse(s.elseBranch);
    var ret := FlattenReturn(s.thenReturn);
    var body := FlattenStmts(s.thenBody);
    Associative(els, [EndKw], rest);
    Associative(ret, els + [EndKw], rest);
    Associative(body, ret + (els + [EndKw]), rest);
    Associative([ThenKw], body + (ret + (els + [EndKw])), rest);
    Associative(FlattenExpr(s.cond), [ThenKw] + (body + (ret + (els + [EndKw]))), rest);
    Associative([IfKw], FlattenExpr(s.cond) + ([ThenKw] + (body + (ret + (els + [EndKw])))), rest);
  }

  lemma ElseSpelling(e: ElseBranch, rest: seq<Token>)
    ensures FlattenElse(Some(e)) + rest == [ElseKw] + (FlattenOptStmt(e.stmt) + (FlattenReturn(e.ret) + rest))
  {
    Associative([ElseKw] + FlattenOptStmt(e.stmt), FlattenReturn(e.ret), rest);
    Associative([ElseKw], FlattenOptStmt(e.stmt), FlattenReturn(e.ret) + rest);
  }

  lemma StmtsSpelling(ss: seq<Stmt>, rest: seq<Token>)
    requires ss != []
    ensures FlattenStmts(ss) + rest == FlattenStmt(ss[0]) + (FlattenStmts(ss[1..]) + rest)
  {
    Associative(FlattenStmt(ss[0]), FlattenStmts(ss[1..]), rest);
  }

  // ---------------------------------------------------------------------
  // Completeness
  // ---------------------------------------------------------------------

  lemma ReturnComplete(ret: Option<Expr>, rest: seq<Token>)
    requires WfReturn(ret) && !StartsWith(rest, ReturnKw)
    ensures ParseReturn(FlattenReturn(ret) + rest) == Some(Parsed(ret, rest))
  {
    if ret.Some? {
      ReturnSpelling(ret.value, rest);
      DropOne(ReturnKw, FlattenExpr(ret.value) + ([Semicolon] + rest));
      DropOne(Semicolon, rest);
      ExprComplete(Statements, ret.value, [Semicolon] + rest);
    } else {
      assert FlattenReturn(ret) + rest == rest;
    }
  }

  /** Every well-formed statement is read back from its own tokens, whatever follows. */
  lemma {:induction false} StmtComplete(s: Stmt, rest: seq<Token>)
    requires WfStmt(s)
    ensures ParseStmt(FlattenStmt(s) + rest) == Some(Parsed(s, rest))
    decreases s, 1
  {
    if s.Assign? {
      var t2 := FlattenExpr(s.value) + ([Semicolon] + rest);
      AssignSpelling(s.target, s.value, rest);
      DropOne(NameTok(s.target), [Op(Eq)] + t2);
      DropOne(Op(Eq), t2);
      DropOne(Semicolon, rest);
      ExprComplete(Statements, s.value, [Semicolon] + rest);
    } else {
      IfSpelling(s, rest);
      DropOne(IfKw, FlattenExpr(s.cond) + IfTail(s, rest));
      IfComplete(s, rest);
    }
  }

  lemma {:induction false} IfComplete(s: Stmt, rest: seq<Token>)
    requires s.If? && WfStmt(s)
    ensures ParseIf(FlattenExpr(s.cond) + IfTail(s, rest)) == Some(Parsed(s, rest))
    decreases s, 0
  {
    var t4 := [EndKw] + rest;
    var t3 := FlattenElse(s.elseBranch) + t4;
    var t2 := FlattenReturn(s.thenReturn) + t3;
    var t1 := IfTail(s, rest);
    ExprComplete(Conditionals, s.cond, t1);
    DropOne(ThenKw, FlattenStmts(s.thenBody) + t2);
    ElseOpens(s.elseBranch, t4);
    ReturnOpens(s.thenReturn, t3);
    StmtsComplete(s.thenBody, t2);
    ReturnComplete(s.thenReturn, t3);
    ElseComplete(s.elseBranch, t4);
    DropOne(EndKw, rest);
    ParseIfOf(FlattenExpr(s.cond) + t1, s.cond, t1, s.thenBody, t2, s.thenReturn, t3, s.elseBranch, t4);
  }

  /** `ParseIf` in terms of the results of its four parts. */
  lemma ParseIfOf(ts: seq<Token>, c: Expr, r1: seq<Token>, body: seq<Stmt>, r2: seq<Token>,
                  ret: Option<Expr>, r3: seq<Token>, els: Option<ElseBranch>, r4: seq<Token>)
    requires ParseExpr(Conditionals, ts) == Some(Parsed(c, r1)) && StartsWith(r1, ThenKw)
    requires ParseStmts(r1[1..]) == Some(Parsed(body, r2))
    requires ParseReturn(r2) == Some(Parsed(ret, r3))
    requires ParseElse(r3) == Some(Parsed(els, r4))
    ensures ParseIf(ts) == if StartsWith(r4, EndKw) then Some(Parsed(If(c, body, ret, els), r4[1..])) else None
  {
  }

  /** `ParseElse` in terms of the results of its two parts. */
  lemma ParseElseOf(ts: seq<Token>, s: Option<Stmt>, r1: seq<Token>, ret: Option<Expr>, r2: seq<Token>)
    requires StartsWith(ts, ElseKw)
    requires ParseOptStmt(ts[1..]) == Some(Parsed(s, r1))
    requires ParseReturn(r1) == Some(Parsed(ret, r2))
    ensures ParseElse(ts) == Some(Parsed(Some(ElseBranch(s, ret)), r2))
  {
  }

  lemma ParseStmtOfIf(ts: seq<Token>)
    ensures ParseStmt([IfKw] + ts) == ParseIf(ts)
  {
    DropOne(IfKw, ts);
  }

  lemma ElseOpens(els: Option<ElseBranch>, rest: seq<Token>)
    requires StartsWith(rest, EndKw)
    ensures StartsWith(FlattenElse(els) + rest, ElseKw) || StartsWith(FlattenElse(els) + rest, EndKw)
  {
  }

  lemma ReturnOpens(ret: Option<Expr>, rest: seq<Token>)
    requires StartsWith(rest, ElseKw) || StartsWith(rest, EndKw)
    ensures !StartsWithStmt(FlattenReturn(ret) + rest)
  {
  }

  lemma {:induction false} StmtsComplete(ss: seq<Stmt>, rest: seq<Token>)
    requires WfStmts(ss) && !StartsWithStmt(rest)
    ensures ParseStmts(FlattenStmts(ss) + rest) == Some(Parsed(ss, rest))
    decreases ss
  {
    if ss == [] {
      assert FlattenStmts(ss) + rest == rest;
    } else {
      var tail := FlattenStmts(ss[1..]) + rest;
      StmtsSpelling(ss, rest);
      StmtComplete(ss[0], tail);
      StmtsComplete(ss[1..], rest);
      Cons(ss);
    }
  }

  lemma {:induction false} OptStmtComplete(s: Option<Stmt>, rest: seq<Token>)
    requires (s.Some? ==> WfStmt(s.value)) && !StartsWithStmt(rest)
    ensures ParseOptStmt(FlattenOptStmt(s) + rest) == Some(Parsed(s, rest))
    decreases s
  {
    if s.Some? {
      StmtComplete(s.value, rest);
    } else {
      assert FlattenOptStmt(s) + rest == rest;
    }
  }

  lemma {:induction false} ElseComplete(els: Option<ElseBranch>, rest: seq<Token>)
    requires els.Some? ==> WfElse(els.value)
    requires StartsWith(rest, EndKw)
    ensures ParseElse(FlattenElse(els) + rest) == Some(Parsed(els, rest))
    decreases els
  {
    if els.Some? {
      var e := els.value;
      var t := FlattenReturn(e.ret) + rest;
      ElseSpelling(e, rest);
      DropOne(ElseKw, FlattenOptStmt(e.stmt) + t);
      ReturnOpens(e.ret, rest);
      OptStmtComplete(e.stmt, t);
      ReturnComplete(e.ret, rest);
      ParseElseOf(FlattenElse(els) + rest, e.stmt, t, e.ret, rest);
    } else {
      assert FlattenElse(els) + rest == rest;
    }
  }

  // ---------------------------------------------------------------------
  // Properties of the statement grammar
  // ---------------------------------------------------------------------

  /**
   * The ELSE branch holds at most one statement: an IF whose ELSE is
   * followed by two statements is not an IF statement.
   */
  lemma ElseHoldsAtMostOneStatement(c: Expr, body: seq<Stmt>, ret: Option<Expr>, s1: Stmt, s2: Stmt, rest: seq<Token>)
    requires WfExpr(c, Conditionals) && WfStmts(body) && WfReturn(ret) && WfStmt(s1) && WfStmt(s2)
    ensures ParseStmt([IfKw] + (FlattenExpr(c) + ([ThenKw] + (FlattenStmts(body) + (FlattenReturn(ret)
                      + ([ElseKw] + (FlattenStmt(s1) + (FlattenStmt(s2) + rest)))))))) == None
  {
    var x := FlattenStmt(s2) + rest;
    var t3 := [ElseKw] + (FlattenStmt(s1) + x);
    var t2 := FlattenReturn(ret) + t3;
    var t1 := [ThenKw] + (FlattenStmts(body) + t2);
    ParseStmtOfIf(FlattenExpr(c) + t1);
    ExprComplete(Conditionals, c, t1);
    DropOne(ThenKw, FlattenStmts(body) + t2);
    ReturnOpens(ret, t3);
    StmtsComplete(body, t2);
    ReturnComplete(ret, t3);
    DropOne(ElseKw, FlattenStmt(s1) + x);
    StmtComplete(s1, x);
    assert ParseOptStmt(t3[1..]) == Some(Parsed(Some(s1), x));
    assert ParseReturn(x) == Some(Parsed(None, x));
    ParseElseOf(t3, Some(s1), x, None, x);
    ParseIfOf(FlattenExpr(c) + t1, c, t1, body, t2, ret, t3, Some(ElseBranch(Some(s1), None)), x);
  }

  /**
   * The operators of expressions are not operators of conditionals: in
   * `IF c - 1 ...` the condition ends before the `-`, and no THEN follows it.
   */
  lemma ConditionsHaveNoArithmetic(c: Expr, op: BinOp, rest: seq<Token>)
    requires WfExpr(c, Conditionals) && InTier(op, Statements)
    ensures ParseStmt([IfKw] + (FlattenExpr(c) + ([Op(op)] + rest))) == None
  {
    var tail := [Op(op)] + rest;
    DropOne(IfKw, FlattenExpr(c) + tail);
    DropOne(Op(op), rest);
    ExprComplete(Conditionals, c, tail);
    ConditionWithoutThen(FlattenExpr(c) + tail, c, tail);
  }

  /** An IF whose condition is not followed by THEN is no statement. */
  lemma ConditionWithoutThen(ts: seq<Token>, c: Expr, r: seq<Token>)
    requires ParseExpr(Conditionals, ts) == Some(Parsed(c, r))
    requires !StartsWith(r, ThenKw)
    ensures ParseIf(ts) == None
  {
  }

  /** An IF with an empty THEN part and no ELSE is a statement. */
  lemma EmptyIfIsStatement(c: Expr)
    requires WfExpr(c, Conditionals)
    ensures ParseStmt([IfKw] + (FlattenExpr(c) + [ThenKw, EndKw])) == Some(Parsed(If(c, [], None, None), []))
  {
    var s := If(c, [], None, None);
    assert FlattenStmts([]) == [] && FlattenReturn(None) == [] && FlattenElse(None) == [];
    assert FlattenStmt(s) + [] == [IfKw] + (FlattenExpr(c) + [ThenKw, EndKw]);
    StmtComplete(s, []);
  }
}
