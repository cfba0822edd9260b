/**
 * The parser for the outer layers of grammar.js: `variable_declaration`,
 * `function_parameter(s)`, `function_definition` (the header line),
 * `a_function` and `source_file`. As for expressions and statements, every
 * parse function states that what it returns is well formed and spells
 * exactly the tokens it consumed, and the completeness lemmas state that
 * every well-formed tree is read back from its own tokens; together they
 * make the file grammar unambiguous.
 */
module DefinitionParser {
  import opened Wrappers
  import opened Lexical
  import opened Syntax
  import opened ExpressionParser
  import opened StatementParser

  // ---------------------------------------------------------------------
  // Values and variable declarations
  // ---------------------------------------------------------------------

  /** A `number`, `string` or `variable_name` token read as a value. */
  function ValueOf(t: Token): (r: Option<Value>)
    ensures r.Some? ==> WfValue(r.value) && ValueToken(r.value) == t
    ensures r.None? <==> !((t.NumberTok? && IsNumber(t.text)) || (t.StringTok? && IsStringLit(t.text)) || (t.NameTok? && IsName(t.text)))
  {
    if t.NumberTok? && IsNumber(t.text) then Some(NumberValue(t.text))
    else if t.StringTok? && IsStringLit(t.text) then Some(StringValue(t.text))
    else if t.NameTok? && IsName(t.text) then Some(NameValue(t.text))
    else None
  }

  /**
   * An optional `= value`: `assign_to_value` when names are allowed,
   * `default_value` (a number or a string only) when they are not.
   */
  function ParseInit(ts: seq<Token>, namesAllowed: bool): (r: Option<Parsed<Option<Value>>>)
    ensures r.Some? ==> FlattenInit(r.value.tree) + r.value.rest == ts && |r.value.rest| <= |ts|
    ensures r.Some? && r.value.tree.Some? ==> WfValue(r.value.tree.value) && (namesAllowed || !r.value.tree.value.NameValue?)
    ensures r.None? <==> StartsWith(ts, Op(Eq)) && (|ts| < 2 || ValueOf(ts[1]).None? || (!namesAllowed && ts[1].NameTok?))
  {
    if !StartsWith(ts, Op(Eq)) then Some(Parsed(None, ts))
    else if |ts| < 2 then None
    else
      var v := ValueOf(ts[1]);
      if v.None? || (!namesAllowed && v.value.NameValue?) then None
      else
        Cons2(ts);
        Some(Parsed(Some(v.value), ts[2..]))
  }

  /** `variable_name` and an optional `assign_to_value`. */
  function ParseDeclarator(ts: seq<Token>): (r: Option<Parsed<Declarator>>)
    ensures r.Some? ==> WfDeclarator(r.value.tree) && FlattenDeclarator(r.value.tree) + r.value.rest == ts
    ensures r.Some? ==> |r.value.rest| < |ts|
  {
    if ts == [] || !ts[0].NameTok? || !IsName(ts[0].text) then None
    else
      var p := ParseInit(ts[1..], true);
      if p.None? then None
      else
        var d := Declarator(ts[0].text, p.value.tree);
        Cons(ts);
        Associative([NameTok(d.name)], FlattenInit(d.init), p.value.rest);
        Some(Parsed(d, p.value.rest))
  }

  /** `repeat(seq(",", variable_name, optional(assign_to_value)))` */
  function ParseMoreDeclarators(ts: seq<Token>): (r: Option<Parsed<seq<Declarator>>>)
    ensures r.Some? ==> (forall i :: 0 <= i < |r.value.tree| ==> WfDeclarator(r.value.tree[i]))
    ensures r.Some? ==> FlattenMoreDeclarators(r.value.tree) + r.value.rest == ts
    ensures r.Some? ==> |r.value.rest| <= |ts| && !StartsWith(r.value.rest, Comma)
    decreases |ts|
  {
    if !StartsWith(ts, Comma) then Some(Parsed([], ts))
    else
      var p1 := ParseDeclarator(ts[1..]);
      if p1.None? then None
      else
        var p2 := ParseMoreDeclarators(p1.value.rest);
        if p2.None? then None
        else
          var all := [p1.value.tree] + p2.value.tree;
          assert all[0] == p1.value.tree && all[1..] == p2.value.tree;
          Cons(ts);
          MoreDeclaratorsSpelling(all, p2.value.rest);
          Some(Parsed(all, p2.value.rest))
  }

  /** `variable_declaration`: a type, one or more declarators, `;`. */
  function ParseVarDecl(ts: seq<Token>): (r: Option<Parsed<VarDecl>>)
    ensures r.Some? ==> WfVarDecl(r.value.tree) && FlattenVarDecl(r.value.tree) + r.value.rest == ts
    ensures r.Some? ==> |r.value.rest| < |ts|
  {
    if !StartsWithType(ts) then None
    else
      var p1 := ParseDeclarator(ts[1..]);
      if p1.None? then None
      else
        var p2 := ParseMoreDeclarators(p1.value.rest);
        if p2.None? || !StartsWith(p2.value.rest, Semicolon) then None
        else
          var d := VarDecl(ts[0].ty, p1.value.tree, p2.value.tree);
          Cons(ts);
          Cons(p2.value.rest);
          VarDeclSpelling(d, p2.value.rest[1..]);
          Some(Parsed(d, p2.value.rest[1..]))
  }

  /** `optional(repeat(variable_declaration))`: declarations as long as a type name comes next. */
  function ParseVarDecls(ts: seq<Token>): (r: Option<Parsed<seq<VarDecl>>>)
    ensures r.Some? ==> (forall i :: 0 <= i < |r.value.tree| ==> WfVarDecl(r.value.tree[i]))
    ensures r.Some? ==> FlattenVarDecls(r.value.tree) + r.value.rest == ts
    ensures r.Some? ==> |r.value.rest| <= |ts| && !StartsWithType(r.value.rest)
    decreases |ts|
  {
    if !StartsWithType(ts) then Some(Parsed([], ts))
    else
      var p1 := ParseVarDecl(ts);
      if p1.None? then None
      else
        var p2 := ParseVarDecls(p1.value.rest);
        if p2.None? then None
        else
          var all := [p1.value.tree] + p2.value.tree;
          assert all[0] == p1.value.tree && all[1..] == p2.value.tree;
          Associative(FlattenVarDecl(all[0]), FlattenVarDecls(all[1..]), p2.value.rest);
          Some(Parsed(all, p2.value.rest))
  }

  // ---------------------------------------------------------------------
  // Parameters
  // ---------------------------------------------------------------------

  /** `function_parameter`: type, `parameter_name`, optional `default_value`. */
  function ParseParam(ts: seq<Token>): (r: Option<Parsed<Param>>)
    ensures r.Some? ==> WfParam(r.value.tree) && FlattenParam(r.value.tree) + r.value.rest == ts
    ensures r.Some? ==> |r.value.rest| < |ts|
  {
    if |ts| < 2 || !ts[0].TypeKw? || !ts[1].NameTok? || !IsParameterName(ts[1].text) then None
    else
      var p := ParseInit(ts[2..], false);
      if p.None? then None
      else
        var prm := Param(ts[0].ty, ts[1].text, p.value.tree);
        Cons2(ts);
        Associative([TypeKw(prm.ty), NameTok(prm.name)], FlattenInit(prm.default), p.value.rest);
        Some(Parsed(prm, p.value.rest))
  }

  /** `optional(repeat(seq(",", function_parameter)))` */
  function ParseMoreParams(ts: seq<Token>): (r: Option<Parsed<seq<Param>>>)
    ensures r.Some? ==> (forall i :: 0 <= i < |r.value.tree| ==> WfParam(r.value.tree[i]))
    ensures r.Some? ==> FlattenMoreParams(r.value.tree) + r.value.rest == ts
    ensures r.Some? ==> |r.value.rest| <= |ts| && !StartsWith(r.value.rest, Comma)
    decreases |ts|
  {
    if !StartsWith(ts, Comma) then Some(Parsed([], ts))
    else
      var p1 := ParseParam(ts[1..]);
      if p1.None? then None
      else
        var p2 := ParseMoreParams(p1.value.rest);
        if p2.None? then None
        else
          var all := [p1.value.tree] + p2.value.tree;
          assert all[0] == p1.value.tree && all[1..] == p2.value.tree;
          Cons(ts);
          MoreParamsSpelling(all, p2.value.rest);
          Some(Parsed(all, p2.value.rest))
  }

  /** `optional(function_parameters)`: present exactly when a type name comes next. */
  function ParseParams(ts: seq<Token>): (r: Option<Parsed<seq<Param>>>)
    ensures r.Some? ==> (forall i :: 0 <= i < |r.value.tree| ==> WfParam(r.value.tree[i]))
    ensures r.Some? ==> FlattenParams(r.value.tree) + r.value.rest == ts && |r.value.rest| <= |ts|
  {
    if !StartsWithType(ts) then Some(Parsed([], ts))
    else
      var p1 := ParseParam(ts);
      if p1.None? then None
      else
        var p2 := ParseMoreParams(p1.value.rest);
        if p2.None? then None
        else
          var all := [p1.value.tree] + p2.value.tree;
          assert all[0] == p1.value.tree && all[1..] == p2.value.tree;
          Associative(FlattenParam(all[0]), FlattenMoreParams(all[1..]), p2.value.rest);
          Some(Parsed(all, p2.value.rest))
  }

  // ---------------------------------------------------------------------
  // Headers, functions and files
  // ---------------------------------------------------------------------

  /** The optional `function_scope`. */
  function ParseScope(ts: seq<Token>): (r: Parsed<Option<Scope>>)
    ensures FlattenScope(r.tree) + r.rest == ts
  {
    if StartsWith(ts, PublicKw) then Cons(ts); Parsed(Some(Public), ts[1..])
    else if StartsWith(ts, PrivateKw) then Cons(ts); Parsed(Some(Private), ts[1..])
    else Parsed(None, ts)
  }

  /** The optional `function_types`: a type name or `VOID`. */
  function ParseReturnType(ts: seq<Token>): (r: Parsed<Option<ReturnType>>)
    ensures FlattenReturnType(r.tree) + r.rest == ts
  {
    if StartsWithType(ts) then Cons(ts); Parsed(Some(Returns(ts[0].ty)), ts[1..])
    else if StartsWith(ts, VoidKw) then Cons(ts); Parsed(Some(Void), ts[1..])
    else Parsed(None, ts)
  }

  /** The parenthesised, possibly empty parameter list of a `function_definition`. */
  function ParseParamList(ts: seq<Token>): (r: Option<Parsed<seq<Param>>>)
    ensures r.Some? ==> forall i :: 0 <= i < |r.value.tree| ==> WfParam(r.value.tree[i])
    ensures r.Some? ==> [LParen] + (FlattenParams(r.value.tree) + ([RParen] + r.value.rest)) == ts
    ensures r.Some? ==> |r.value.rest| < |ts|
  {
    if !StartsWith(ts, LParen) then None
    else
      var p := ParseParams(ts[1..]);
      if p.None? || !StartsWith(p.value.rest, RParen) then None
      else
        Cons(ts);
        Cons(p.value.rest);
        Some(Parsed(p.value.tree, p.value.rest[1..]))
  }

  /** `function_definition` up to its closing parenthesis. */
  function ParseSignature(ts: seq<Token>): (r: Option<Parsed<Header>>)
    ensures r.Some? ==> WfHeader(r.value.tree) && FlattenSignature(r.value.tree) + r.value.rest == ts
    ensures r.Some? ==> |r.value.rest| < |ts|
  {
    var s := ParseScope(ts);
    var t := ParseReturnType(s.rest);
    var u := t.rest;
    if |u| < 2 || u[0] != FunctionKw || !u[1].NameTok? || !IsName(u[1].text) then None
    else
      var p := ParseParamList(u[2..]);
      if p.None? then None
      else
        var h := Header(s.tree, t.tree, u[1].text, p.value.tree);
        Cons2(u);
        SignatureSpelling(h, p.value.rest);
        Some(Parsed(h, p.value.rest))
  }

  /** `function_definition`: the signature and the newline that ends the header line. */
  function ParseHeader(ts: seq<Token>): (r: Option<Parsed<Header>>)
    ensures r.Some? ==> WfHeader(r.value.tree) && FlattenHeader(r.value.tree) + r.value.rest == ts
    ensures r.Some? ==> |r.value.rest| < |ts|
  {
    var p := ParseSignature(ts);
    if p.None? || !StartsWith(p.value.rest, Newline) then None
    else
      var rest := p.value.rest[1..];
      Cons(p.value.rest);
      Associative(FlattenSignature(p.value.tree), [Newline], rest);
      Some(Parsed(p.value.tree, rest))
  }

  /** `a_function`: header, declarations, statements, optional RETURN, `END`. */
  function ParseFunction(ts: seq<Token>): (r: Option<Parsed<Function>>)
    ensures r.Some? ==> WfFunction(r.value.tree) && FlattenFunction(r.value.tree) + r.value.rest == ts
    ensures r.Some? ==> |r.value.rest| < |ts|
  {
    var p1 := ParseHeader(ts);
    if p1.None? then None
    else
      var p2 := ParseVarDecls(p1.value.rest);
      if p2.None? then None
      else
        var p3 := ParseStmts(p2.value.rest);
        if p3.None? then None
        else
          var p4 := ParseReturn(p3.value.rest);
          if p4.None? || !StartsWith(p4.value.rest, EndKw) then None
          else
            var f := Function(p1.value.tree, p2.value.tree, p3.value.tree, p4.value.tree);
            var rest := p4.value.rest[1..];
            Cons(p4.value.rest);
            FunctionSpelling(f, rest);
            Some(Parsed(f, rest))
  }

  /** `source_file`: functions, one after another, up to the end of the tokens. */
  function ParseSourceFile(ts: seq<Token>): (r: Option<seq<Function>>)
    ensures r.Some? ==> WfFile(r.value) && FlattenFile(r.value) == ts
    decreases |ts|
  {
    if ts == [] then Some([])
    else
      var p := ParseFunction(ts);
      if p.None? then None
      else
        var fs := ParseSourceFile(p.value.rest);
        if fs.None? then None
        else
          var all := [p.value.tree] + fs.value;
          assert all[0] == p.value.tree && all[1..] == fs.value;
          Some(all)
  }

  // ---------------------------------------------------------------------
  // Token spellings, grouped the way the parser reads them
  // ---------------------------------------------------------------------

  lemma MoreDeclaratorsSpelling(ds: seq<Declarator>, rest: seq<Token>)
    requires ds != []
    ensures FlattenMoreDeclarators(ds) + rest
         == [Comma] + (FlattenDeclarator(ds[0]) + (FlattenMoreDeclarators(ds[1..]) + rest))
  {
    Associative([Comma] + FlattenDeclarator(ds[0]), FlattenMoreDeclarators(ds[1..]), rest);
    Associative([Comma], FlattenDeclarator(ds[0]), FlattenMoreDeclarators(ds[1..]) + rest);
  }

  lemma MoreParamsSpelling(ps: seq<Param>, rest: seq<Token>)
    requires ps != []
    ensures FlattenMoreParams(ps) + rest == [Comma] + (FlattenParam(ps[0]) + (FlattenMoreParams(ps[1..]) + rest))
  {
    Associative([Comma] + FlattenParam(ps[0]), FlattenMoreParams(ps[1..]), rest);
    Associative([Comma], FlattenParam(ps[0]), FlattenMoreParams(ps[1..]) + rest);
  }

  lemma VarDeclSpelling(d: VarDecl, rest: seq<Token>)
    ensures FlattenVarDecl(d) + rest
         == [TypeKw(d.ty)] + (FlattenDeclarator(d.first) + (FlattenMoreDeclarators(d.more) + ([Semicolon] + rest)))
  {
    var a, b, c := [TypeKw(d.ty)], FlattenDeclarator(d.first), FlattenMoreDeclarators(d.more);
    Associative(a + b + c, [Semicolon], rest);
    Associative(a + b, c, [Semicolon] + rest);
    Associative(a, b, c + ([Semicolon] + rest));
  }

  lemma SignatureSpelling(h: Header, rest: seq<Token>)
    ensures FlattenSignature(h) + rest
         == FlattenScope(h.scope) + (FlattenReturnType(h.returnType)
              + ([FunctionKw, NameTok(h.name)] + ([LParen] + (FlattenParams(h.params) + ([RParen] + rest)))))
  {
    var a, b, c, l := FlattenScope(h.scope), FlattenReturnType(h.returnType), [FunctionKw, NameTok(h.name)], [LParen];
    var d := FlattenParams(h.params);
    assert [FunctionKw, NameTok(h.name), LParen] == c + l;
    Associative(a + b + (c + l) + d, [RParen], rest);
    Associative(a + b + (c + l), d, [RParen] + rest);
    Associative(a + b, c + l, d + ([RParen] + rest));
    Associative(c, l, d + ([RParen] + rest));
    Associative(a, b, c + (l + (d + ([RParen] + rest))));
  }

  lemma FunctionSpelling(f: Function, rest: seq<Token>)
    ensures FlattenFunction(f) + rest
         == FlattenHeader(f.header) + (FlattenVarDecls(f.decls) + (FlattenStmts(f.body)
              + (FlattenReturn(f.ret) + ([EndKw] + rest))))
  {
    var a, b, c, d := FlattenHeader(f.header), FlattenVarDecls(f.decls), FlattenStmts(f.body), FlattenReturn(f.ret);
    Associative(a + b + c + d, [EndKw], rest);
    Associative(a + b + c, d, [EndKw] + rest);
    Associative(a + b, c, d + ([EndKw] + rest));
    Associative(a, b, c + (d + ([EndKw] + rest)));
  }

  // ---------------------------------------------------------------------
  // Completeness
  // ---------------------------------------------------------------------

  lemma ValueOfToken(v: Value)
    requires WfValue(v)
    ensures ValueOf(ValueToken(v)) == Some(v)
  {
  }

  lemma InitComplete(init: Option<Value>, namesAllowed: bool, rest: seq<Token>)
    requires init.Some? ==> WfValue(init.value) && (namesAllowed || !init.value.NameValue?)
    requires init.None? ==> !StartsWith(rest, Op(Eq))
    ensures ParseInit(FlattenInit(init) + rest, namesAllowed) == Some(Parsed(init, rest))
  {
    if init.Some? {
      DropTwo(Op(Eq), ValueToken(init.value), rest);
      ValueOfToken(init.value);
    } else {
      assert FlattenInit(init) + rest == rest;
    }
  }

  /** The tokens that may follow a declarator inside a declaration. */
  predicate EndsDeclarator(ts: seq<Token>)
  {
    StartsWith(ts, Comma) || StartsWith(ts, Semicolon)
  }

  lemma DeclaratorComplete(d: Declarator, rest: seq<Token>)
    requires WfDeclarator(d) && EndsDeclarator(rest)
    ensures ParseDeclarator(FlattenDeclarator(d) + rest) == Some(Parsed(d, rest))
  {
    Associative([NameTok(d.name)], FlattenInit(d.init), rest);
    DropOne(NameTok(d.name), FlattenInit(d.init) + rest);
    InitComplete(d.init, true, rest);
  }

  lemma MoreDeclaratorsOpen(ds: seq<Declarator>, rest: seq<Token>)
    requires StartsWith(rest, Semicolon)
    ensures EndsDeclarator(FlattenMoreDeclarators(ds) + rest)
  {
  }

  lemma {:induction false} MoreDeclaratorsComplete(ds: seq<Declarator>, rest: seq<Token>)
    requires forall i :: 0 <= i < |ds| ==> WfDeclarator(ds[i])
    requires StartsWith(rest, Semicolon)
    ensures ParseMoreDeclarators(FlattenMoreDeclarators(ds) + rest) == Some(Parsed(ds, rest))
    decreases ds
  {
    if ds == [] {
      assert FlattenMoreDeclarators(ds) + rest == rest;
    } else {
      var tail := FlattenMoreDeclarators(ds[1..]) + rest;
      MoreDeclaratorsSpelling(ds, rest);
      DropOne(Comma, FlattenDeclarator(ds[0]) + tail);
      MoreDeclaratorsOpen(ds[1..], rest);
      DeclaratorComplete(ds[0], tail);
      MoreDeclaratorsComplete(ds[1..], rest);
      ParseMoreDeclaratorsStep([Comma] + (FlattenDeclarator(ds[0]) + tail), ds[0], tail, ds[1..], rest);
      Cons(ds);
    }
  }

  /** One round of `ParseMoreDeclarators`: a comma, a declarator, then the remaining ones. */
  lemma ParseMoreDeclaratorsStep(ts: seq<Token>, d: Declarator, r1: seq<Token>, more: seq<Declarator>, r2: seq<Token>)
    requires StartsWith(ts, Comma)
    requires ParseDeclarator(ts[1..]) == Some(Parsed(d, r1))
    requires ParseMoreDeclarators(r1) == Some(Parsed(more, r2))
    ensures ParseMoreDeclarators(ts) == Some(Parsed([d] + more, r2))
  {
  }

  lemma VarDeclComplete(d: VarDecl, rest: seq<Token>)
    requires WfVarDecl(d)
    ensures ParseVarDecl(FlattenVarDecl(d) + rest) == Some(Parsed(d, rest))
  {
    var close := [Semicolon] + rest;
    var tail := FlattenMoreDeclarators(d.more) + close;
    VarDeclSpelling(d, rest);
    DropOne(TypeKw(d.ty), FlattenDeclarator(d.first) + tail);
    MoreDeclaratorsOpen(d.more, close);
    DeclaratorComplete(d.first, tail);
    MoreDeclaratorsComplete(d.more, close);
    DropOne(Semicolon, rest);
  }

  lemma {:induction false} VarDeclsComplete(ds: seq<VarDecl>, rest: seq<Token>)
    requires forall i :: 0 <= i < |ds| ==> WfVarDecl(ds[i])
    requires !StartsWithType(rest)
    ensures ParseVarDecls(FlattenVarDecls(ds) + rest) == Some(Parsed(ds, rest))
    decreases ds
  {
    if ds == [] {
      assert FlattenVarDecls(ds) + rest == rest;
    } else {
      var tail := FlattenVarDecls(ds[1..]) + rest;
      Associative(FlattenVarDecl(ds[0]), FlattenVarDecls(ds[1..]), rest);
      VarDeclComplete(ds[0], tail);
      VarDeclsComplete(ds[1..], rest);
      Cons(ds);
    }
  }

  /** The tokens that may follow a parameter. */
  predicate EndsParam(ts: seq<Token>)
  {
    StartsWith(ts, Comma) || StartsWith(ts, RParen)
  }

  lemma ParamComplete(p: Param, rest: seq<Token>)
    requires WfParam(p) && EndsParam(rest)
    ensures ParseParam(FlattenParam(p) + rest) == Some(Parsed(p, rest))
  {
    Associative([TypeKw(p.ty), NameTok(p.name)], FlattenInit(p.default), rest);
    DropTwo(TypeKw(p.ty), NameTok(p.name), FlattenInit(p.default) + rest);
    InitComplete(p.default, false, rest);
  }

  lemma MoreParamsOpen(ps: seq<Param>, rest: seq<Token>)
    requires StartsWith(rest, RParen)
    ensures EndsParam(FlattenMoreParams(ps) + rest)
  {
  }

  lemma {:induction false} MoreParamsComplete(ps: seq<Param>, rest: seq<Token>)
    requires forall i :: 0 <= i < |ps| ==> WfParam(ps[i])
    requires StartsWith(rest, RParen)
    ensures ParseMoreParams(FlattenMoreParams(ps) + rest) == Some(Parsed(ps, rest))
    decreases ps
  {
    if ps == [] {
      assert FlattenMoreParams(ps) + rest == rest;
    } else {
      var tail := FlattenMoreParams(ps[1..]) + rest;
      MoreParamsSpelling(ps, rest);
      DropOne(Comma, FlattenParam(ps[0]) + tail);
      MoreParamsOpen(ps[1..], rest);
      ParamComplete(ps[0], tail);
      MoreParamsComplete(ps[1..], rest);
      ParseMoreParamsStep([Comma] + (FlattenParam(ps[0]) + tail), ps[0], tail, ps[1..], rest);
      Cons(ps);
    }
  }

  /** One round of `ParseMoreParams`: a comma, a param, then the remaining ones. */
  lemma ParseMoreParamsStep(ts: seq<Token>, d: Param, r1: seq<Token>, more: seq<Param>, r2: seq<Token>)
    requires StartsWith(ts, Comma)
    requires ParseParam(ts[1..]) == Some(Parsed(d, r1))
    requires ParseMoreParams(r1) == Some(Parsed(more, r2))
    ensures ParseMoreParams(ts) == Some(Parsed([d] + more, r2))
  {
  }

  lemma ParamsComplete(ps: seq<Param>, rest: seq<Token>)
    requires forall i :: 0 <= i < |ps| ==> WfParam(ps[i])
    requires StartsWith(rest, RParen)
    ensures ParseParams(FlattenParams(ps) + rest) == Some(Parsed(ps, rest))
  {
    if ps == [] {
      assert FlattenParams(ps) + rest == rest;
    } else {
      var tail := FlattenMoreParams(ps[1..]) + rest;
      Associative(FlattenParam(ps[0]), FlattenMoreParams(ps[1..]), rest);
      MoreParamsOpen(ps[1..], rest);
      ParamComplete(ps[0], tail);
      MoreParamsComplete(ps[1..], rest);
      Cons(ps);
    }
  }

  lemma ScopeComplete(s: Option<Scope>, rest: seq<Token>)
    requires !StartsWith(rest, PublicKw) && !StartsWith(rest, PrivateKw)
    ensures ParseScope(FlattenScope(s) + rest) == Parsed(s, rest)
  {
    match s
    case None => assert FlattenScope(s) + rest == rest;
    case Some(Public) => DropOne(PublicKw, rest);
    case Some(Private) => DropOne(PrivateKw, rest);
  }

  lemma ReturnTypeComplete(r: Option<ReturnType>, rest: seq<Token>)
    requires StartsWith(rest, FunctionKw)
    ensures ParseReturnType(FlattenReturnType(r) + rest) == Parsed(r, rest)
  {
    match r
    case None => assert FlattenReturnType(r) + rest == rest;
    case Some(Returns(t)) => DropOne(TypeKw(t), rest);
    case Some(Void) => DropOne(VoidKw, rest);
  }

  lemma SignatureComplete(h: Header, rest: seq<Token>)
    requires WfHeader(h)
    ensures ParseSignature(FlattenSignature(h) + rest) == Some(Parsed(h, rest))
  {
    var list := [LParen] + (FlattenParams(h.params) + ([RParen] + rest));
    var u := [FunctionKw, NameTok(h.name)] + list;
    var t := FlattenReturnType(h.returnType) + u;
    SignatureSpelling(h, rest);
    DropTwo(FunctionKw, NameTok(h.name), list);
    assert !StartsWith(t, PublicKw) && !StartsWith(t, PrivateKw);
    ScopeComplete(h.scope, t);
    ReturnTypeComplete(h.returnType, u);
    ParamListComplete(h.params, rest);
  }

  lemma ParamListComplete(ps: seq<Param>, rest: seq<Token>)
    requires forall i :: 0 <= i < |ps| ==> WfParam(ps[i])
    ensures ParseParamList([LParen] + (FlattenParams(ps) + ([RParen] + rest))) == Some(Parsed(ps, rest))
  {
    DropOne(LParen, FlattenParams(ps) + ([RParen] + rest));
    ParamsComplete(ps, [RParen] + rest);
    DropOne(RParen, rest);
  }

  lemma HeaderComplete(h: Header, rest: seq<Token>)
    requires WfHeader(h)
    ensures ParseHeader(FlattenHeader(h) + rest) == Some(Parsed(h, rest))
  {
    Associative(FlattenSignature(h), [Newline], rest);
    SignatureComplete(h, [Newline] + rest);
    DropOne(Newline, rest);
  }

  /** What follows the declarations of a function body never starts another declaration. */
  lemma BodyOpens(body: seq<Stmt>, ret: Option<Expr>, rest: seq<Token>)
    ensures !StartsWithStmt(FlattenReturn(ret) + ([EndKw] + rest))
    ensures !StartsWithType(FlattenStmts(body) + (FlattenReturn(ret) + ([EndKw] + rest)))
  {
    if body != [] {
      var first := FlattenStmt(body[0]);
      Associative(first, FlattenStmts(body[1..]), FlattenReturn(ret) + ([EndKw] + rest));
      assert (first + (FlattenStmts(body[1..]) + (FlattenReturn(ret) + ([EndKw] + rest))))[0] == first[0];
    }
  }

  lemma FunctionComplete(f: Function, rest: seq<Token>)
    requires WfFunction(f)
    ensures ParseFunction(FlattenFunction(f) + rest) == Some(Parsed(f, rest))
  {
    var t4 := [EndKw] + rest;
    var t3 := FlattenReturn(f.ret) + t4;
    var t2 := FlattenStmts(f.body) + t3;
    var t1 := FlattenVarDecls(f.decls) + t2;
    FunctionSpelling(f, rest);
    BodyOpens(f.body, f.ret, rest);
    HeaderComplete(f.header, t1);
    VarDeclsComplete(f.decls, t2);
    StmtsComplete(f.body, t3);
    ReturnComplete(f.ret, t4);
    DropOne(EndKw, rest);
    ParseFunctionOf(FlattenFunction(f) + rest, f.header, t1, f.decls, t2, f.body, t3, f.ret, t4);
  }

  /** `ParseFunction` in terms of the results of its four parts. */
  lemma ParseFunctionOf(ts: seq<Token>, h: Header, r1: seq<Token>, decls: seq<VarDecl>, r2: seq<Token>,
                        body: seq<Stmt>, r3: seq<Token>, ret: Option<Expr>, r4: seq<Token>)
    requires ParseHeader(ts) == Some(Parsed(h, r1))
    requires ParseVarDecls(r1) == Some(Parsed(decls, r2))
    requires ParseStmts(r2) == Some(Parsed(body, r3))
    requires ParseReturn(r3) == Some(Parsed(ret, r4))
    ensures ParseFunction(ts) == if StartsWith(r4, EndKw) then Some(Parsed(Function(h, decls, body, ret), r4[1..])) else None
  {
  }

  /** Every well-formed source file is read back from its own tokens. */
  lemma {:induction false} FileComplete(fs: seq<Function>)
    requires WfFile(fs)
    ensures ParseSourceFile(FlattenFile(fs)) == Some(fs)
    decreases fs
  {
    if fs != [] {
      var tail := FlattenFile(fs[1..]);
      FunctionComplete(fs[0], tail);
      FileComplete(fs[1..]);
      Cons(fs);
    }
  }

  /** The file grammar is unambiguous: two well-formed files with the same tokens are the same file. */
  lemma FileGrammarIsUnambiguous(fs1: seq<Function>, fs2: seq<Function>)
    requires WfFile(fs1) && WfFile(fs2) && FlattenFile(fs1) == FlattenFile(fs2)
    ensures fs1 == fs2
  {
    FileComplete(fs1);
    FileComplete(fs2);
  }

  // ---------------------------------------------------------------------
  // Properties of functions and files
  // ---------------------------------------------------------------------

  /** The header line must end with a newline: a signature followed by anything else is no header. */
  lemma HeaderNeedsNewline(h: Header, rest: seq<Token>)
    requires WfHeader(h) && !StartsWith(rest, Newline)
    ensures ParseHeader(FlattenSignature(h) + rest) == None
    ensures ParseFunction(FlattenSignature(h) + rest) == None
  {
    SignatureComplete(h, rest);
  }

  /** `VOID` is a return type only: it starts no declaration, no statement and no parameter. */
  lemma VoidOnlyAsReturnType(h: Header, f: string, ts: seq<Token>)
    requires WfHeader(h)
    ensures ParseVarDecl([VoidKw] + ts) == None
    ensures ParseFunction(FlattenHeader(h) + ([VoidKw] + ts)) == None
    ensures ParseSignature([FunctionKw, NameTok(f)] + ([LParen] + ([VoidKw] + ts))) == None
  {
    VoidEndsNoFunctionBody(h, ts);
    VoidStartsNoParameter(f, ts);
  }

  lemma VoidEndsNoFunctionBody(h: Header, ts: seq<Token>)
    requires WfHeader(h)
    ensures ParseFunction(FlattenHeader(h) + ([VoidKw] + ts)) == None
  {
    var v := [VoidKw] + ts;
    HeaderComplete(h, v);
    VoidAfterHeader(FlattenHeader(h) + v, h, v);
  }

  /** A header followed by VOID makes no function: VOID opens no declaration, statement, RETURN or END. */
  lemma VoidAfterHeader(ts: seq<Token>, h: Header, v: seq<Token>)
    requires ParseHeader(ts) == Some(Parsed(h, v))
    requires StartsWith(v, VoidKw)
    ensures ParseFunction(ts) == None
  {
    VoidOpensNothing(v);
    MissingEnd(ts, h, v, [], v, [], v, None, v);
  }

  /** VOID opens no declaration, statement or RETURN, and is not `END`. */
  lemma VoidOpensNothing(v: seq<Token>)
    requires StartsWith(v, VoidKw)
    ensures ParseVarDecls(v) == Some(Parsed([], v))
    ensures ParseStmts(v) == Some(Parsed([], v))
    ensures ParseReturn(v) == Some(Parsed(None, v))
    ensures !StartsWith(v, EndKw)
  {
    NoDecls(v);
    NoStmts(v);
    NoReturn(v);
  }

  /** A function body that is not closed by `END` makes no function. */
  lemma MissingEnd(ts: seq<Token>, h: Header, r1: seq<Token>, decls: seq<VarDecl>, r2: seq<Token>,
                   body: seq<Stmt>, r3: seq<Token>, ret: Option<Expr>, r4: seq<Token>)
    requires ParseHeader(ts) == Some(Parsed(h, r1))
    requires ParseVarDecls(r1) == Some(Parsed(decls, r2))
    requires ParseStmts(r2) == Some(Parsed(body, r3))
    requires ParseReturn(r3) == Some(Parsed(ret, r4))
    requires !StartsWith(r4, EndKw)
    ensures ParseFunction(ts) == None
  {
  }

  /**
   * A parameter's default is a number or a string, never a name, while
   * the value assigned in a declaration may be a name.
   */
  lemma DefaultIsNumberOrString(ty: Type, p: string, v: string, x: string, rest: seq<Token>)
    requires IsName(v) && IsName(x)
    ensures ParseParam([TypeKw(ty), NameTok(p), Op(Eq), NameTok(x)] + rest) == None
    ensures ParseDeclarator([NameTok(v), Op(Eq), NameTok(x)] + rest) == Some(Parsed(Declarator(v, Some(NameValue(x))), rest))
  {
    var ts := [TypeKw(ty), NameTok(p), Op(Eq), NameTok(x)] + rest;
    assert ts[2..] == [Op(Eq), NameTok(x)] + rest;
    var ds := [NameTok(v), Op(Eq), NameTok(x)] + rest;
    assert ds[1..] == [Op(Eq), NameTok(x)] + rest;
    DropTwo(Op(Eq), NameTok(x), rest);
  }

  /**
   * Declarations come before the statements of a function: after any
   * declarations and at least one statement, a further declaration ends
   * the parse.
   */
  lemma DeclarationsComeFirst(h: Header, decls: seq<VarDecl>, body: seq<Stmt>, d: VarDecl, rest: seq<Token>)
    requires WfHeader(h) && (forall i :: 0 <= i < |decls| ==> WfVarDecl(decls[i]))
    requires body != [] && WfStmts(body) && WfVarDecl(d)
    ensures ParseFunction(FlattenHeader(h) + (FlattenVarDecls(decls) + (FlattenStmts(body) + (FlattenVarDecl(d) + rest)))) == None
  {
    var after := FlattenVarDecl(d) + rest;
    var stmts := FlattenStmts(body) + after;
    var v := FlattenVarDecls(decls) + stmts;
    DeclOpensWithType(d, rest);
    StmtsOpenWithNameOrIf(body, after);
    HeaderComplete(h, v);
    VarDeclsComplete(decls, stmts);
    StmtsComplete(body, after);
    MissingEnd(FlattenHeader(h) + v, h, v, decls, stmts, body, after, None, after);
  }

  /** A declaration opens with its type name: no statement, RETURN or END. */
  lemma DeclOpensWithType(d: VarDecl, ts: seq<Token>)
    ensures StartsWith(FlattenVarDecl(d) + ts, TypeKw(d.ty))
    ensures !StartsWithStmt(FlattenVarDecl(d) + ts) && !StartsWith(FlattenVarDecl(d) + ts, EndKw)
    ensures ParseReturn(FlattenVarDecl(d) + ts) == Some(Parsed(None, FlattenVarDecl(d) + ts))
  {
    VarDeclSpelling(d, ts);
    NoReturn(FlattenVarDecl(d) + ts);
  }

  /** A non-empty statement sequence opens with a name or IF, never a type. */
  lemma StmtsOpenWithNameOrIf(body: seq<Stmt>, ts: seq<Token>)
    requires body != []
    ensures StartsWithStmt(FlattenStmts(body) + ts) && !StartsWithType(FlattenStmts(body) + ts)
  {
    Associative(FlattenStmt(body[0]), FlattenStmts(body[1..]), ts);
    StmtOpensWithNameOrIf(body[0], FlattenStmts(body[1..]) + ts);
  }

  /** A source file holds only functions: a top-level declaration or statement is no source file. */
  lemma SourceFileHoldsOnlyFunctions(d: VarDecl, s: Stmt, ts: seq<Token>)
    ensures ParseSourceFile(FlattenVarDecl(d) + ts) == None
    ensures ParseSourceFile(FlattenStmt(s) + ts) == None
  {
    DeclarationIsNoSourceFile(d, ts);
    StatementIsNoSourceFile(s, ts);
  }

  lemma DeclarationIsNoSourceFile(d: VarDecl, ts: seq<Token>)
    ensures ParseSourceFile(FlattenVarDecl(d) + ts) == None
  {
    var w := FlattenInit(d.first.init) + (FlattenMoreDeclarators(d.more) + ([Semicolon] + ts));
    var u := FlattenDeclarator(d.first) + (FlattenMoreDeclarators(d.more) + ([Semicolon] + ts));
    var x := FlattenVarDecl(d) + ts;
    VarDeclSpelling(d, ts);
    DropOne(TypeKw(d.ty), u);
    Associative([NameTok(d.first.name)], FlattenInit(d.first.init), FlattenMoreDeclarators(d.more) + ([Semicolon] + ts));
    DropOne(NameTok(d.first.name), w);
    NoScope(x);
    assert ParseReturnType(x).rest == u;
    NotAFunction(x);
  }

  lemma StatementIsNoSourceFile(s: Stmt, ts: seq<Token>)
    ensures ParseSourceFile(FlattenStmt(s) + ts) == None
  {
    var y := FlattenStmt(s) + ts;
    StmtOpensWithNameOrIf(s, ts);
    NoScope(y);
    NoReturnType(y);
    NotAFunction(y);
  }

  lemma StmtOpensWithNameOrIf(s: Stmt, ts: seq<Token>)
    ensures StartsWithStmt(FlattenStmt(s) + ts)
  {
    match s
    case Assign(x, e) =>
      AssignSpelling(x, e, ts);
      DropOne(NameTok(x), [Op(Eq)] + (FlattenExpr(e) + ([Semicolon] + ts)));
    case If(c, body, ret, els) =>
      IfSpelling(s, ts);
      DropOne(IfKw, FlattenExpr(c) + IfTail(s, ts));
  }

  // ---------------------------------------------------------------------
  // Single steps of the parse
  // ---------------------------------------------------------------------

  lemma NoDecls(ts: seq<Token>)
    requires !StartsWithType(ts)
    ensures ParseVarDecls(ts) == Some(Parsed([], ts))
  {
  }

  lemma NoStmts(ts: seq<Token>)
    requires !StartsWithStmt(ts)
    ensures ParseStmts(ts) == Some(Parsed([], ts))
  {
  }

  lemma NoReturn(ts: seq<Token>)
    requires !StartsWith(ts, ReturnKw)
    ensures ParseReturn(ts) == Some(Parsed(None, ts))
  {
  }

  /** Tokens whose optional scope and return type are not followed by `FUNCTION` are no source file. */
  lemma NotAFunction(ts: seq<Token>)
    requires ts != [] && !StartsWith(ParseReturnType(ParseScope(ts).rest).rest, FunctionKw)
    ensures ParseSourceFile(ts) == None
  {
    SignatureNeedsFunctionKeyword(ts);
    NoFunctionWithoutHeader(ts);
  }

  lemma SignatureNeedsFunctionKeyword(ts: seq<Token>)
    requires !StartsWith(ParseReturnType(ParseScope(ts).rest).rest, FunctionKw)
    ensures ParseSignature(ts) == None
  {
  }

  lemma NoFunctionWithoutHeader(ts: seq<Token>)
    requires ts != [] && ParseSignature(ts) == None
    ensures ParseHeader(ts) == None && ParseFunction(ts) == None && ParseSourceFile(ts) == None
  {
    assert ParseHeader(ts) == None;
    assert ParseFunction(ts) == None;
  }

  /** `VOID` cannot open a parameter list. */
  lemma VoidStartsNoParameter(f: string, ts: seq<Token>)
    ensures ParseSignature([FunctionKw, NameTok(f)] + ([LParen] + ([VoidKw] + ts))) == None
  {
    var list := [LParen] + ([VoidKw] + ts);
    var s := [FunctionKw, NameTok(f)] + list;
    DropTwo(FunctionKw, NameTok(f), list);
    NoScope(s);
    NoReturnType(s);
    VoidOpensNoParameterList(ts);
    assert ParseReturnType(ParseScope(s).rest).rest == s;
  }

  lemma VoidOpensNoParameterList(ts: seq<Token>)
    ensures ParseParamList([LParen] + ([VoidKw] + ts)) == None
  {
    DropOne(LParen, [VoidKw] + ts);
    DropOne(VoidKw, ts);
    NoParams([VoidKw] + ts);
  }

  lemma NoScope(ts: seq<Token>)
    requires !StartsWith(ts, PublicKw) && !StartsWith(ts, PrivateKw)
    ensures ParseScope(ts) == Parsed(None, ts)
  {
  }

  lemma NoReturnType(ts: seq<Token>)
    requires !StartsWithType(ts) && !StartsWith(ts, VoidKw)
    ensures ParseReturnType(ts) == Parsed(None, ts)
  {
  }

  lemma NoParams(ts: seq<Token>)
    requires !StartsWithType(ts)
    ensures ParseParams(ts) == Some(Parsed([], ts))
  {
  }
}
