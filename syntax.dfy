/**
 * The syntax-tree model of the Cicode grammar (grammar.js): the tokens the
 * parser reads once whitespace and comments are gone, the tree for every
 * production of the core, what makes a tree well formed, and the token
 * sequence each tree stands for (its flattening).
 */
module Syntax {
  import opened Wrappers
  import opened Lexical

  // ---------------------------------------------------------------------
  // Tokens
  // ---------------------------------------------------------------------

  /** `_type`: the eight declarable types */
  datatype Type = Int | String | Real | Quality | Timestamp | Bool | Object | Long

  /**
   * `operators_used_in_statements` (the first eight) and
   * `operators_used_in_conditionals` (the last nine).
   */
  datatype BinOp =
    | Add | Sub | Mul | Div | Mod | BitAnd | BitOr | BitXor
    | Eq | Ne | Lt | Gt | Le | Ge | And | Or | Not

  /** The two single-tier operator grammars: expressions and conditionals. */
  datatype Tier = Statements | Conditionals

  predicate InTier(op: BinOp, tier: Tier)
  {
    (op in {Add, Sub, Mul, Div, Mod, BitAnd, BitOr, BitXor}) == (tier == Statements)
  }

  /**
   * A token of the grammar. `-` (unary and binary minus) and `=`
   * (assignment, default value and equality) are one token each, as in the
   * grammar, where they are the same string.
   */
  datatype Token =
    | TypeKw(ty: Type)
    | Op(op: BinOp)
    | NameTok(text: string)
    | NumberTok(text: string)
    | StringTok(text: string)
    | LParen | RParen | Comma | Semicolon | Newline
    | FunctionKw | EndKw | PublicKw | PrivateKw | VoidKw
    | IfKw | ThenKw | ElseKw | ReturnKw

  function TypeSpelling(t: Type): string
  {
    match t
    case Int => "INT"
    case String => "STRING"
    case Real => "REAL"
    case Quality => "QUALITY"
    case Timestamp => "TIMESTAMP"
    case Bool => "BOOL"
    case Object => "OBJECT"
    case Long => "LONG"
  }

  function OpSpelling(op: BinOp): string
  {
    match op
    case Add => "+"
    case Sub => "-"
    case Mul => "*"
    case Div => "/"
    case Mod => "MOD"
    case BitAnd => "BITAND"
    case BitOr => "BITOR"
    case BitXor => "BITXOR"
    case Eq => "="
    case Ne => "<>"
    case Lt => "<"
    case Gt => ">"
    case Le => "<="
    case Ge => ">="
    case And => "AND"
    case Or => "OR"
    case Not => "NOT"
  }

  /** The exact, case-sensitive source text of a token. */
  function Spelling(t: Token): string
  {
    match t
    case TypeKw(ty) => TypeSpelling(ty)
    case Op(op) => OpSpelling(op)
    case NameTok(s) => s
    case NumberTok(s) => s
    case StringTok(s) => s
    case LParen => "("
    case RParen => ")"
    case Comma => ","
    case Semicolon => ";"
    case Newline => "\n"
    case FunctionKw => "FUNCTION"
    case EndKw => "END"
    case PublicKw => "PUBLIC"
    case PrivateKw => "PRIVATE"
    case VoidKw => "VOID"
    case IfKw => "IF"
    case ThenKw => "THEN"
    case ElseKw => "ELSE"
    case ReturnKw => "RETURN"
  }

  /** The reserved words: fixed tokens spelled with letters. */
  predicate IsReservedWord(t: Token)
  {
    || t.TypeKw?
    || (t.Op? && t.op in {Mod, BitAnd, BitOr, BitXor, And, Or, Not})
    || t in {FunctionKw, EndKw, PublicKw, PrivateKw, VoidKw, IfKw, ThenKw, ElseKw, ReturnKw}
  }

  /**
   * Every reserved word is also spelled like a name, so which of the two a
   * spelling is must be decided by the lexer; the parser below reads tokens
   * that are already classified.
   */
  lemma ReservedWordsAreNameShaped(t: Token)
    requires IsReservedWord(t)
    ensures IsName(Spelling(t))
  {
    match t
    case TypeKw(ty) => TypeNamesAreNameShaped(ty);
    case Op(op) =>
    case _ =>
  }

  lemma TypeNamesAreNameShaped(ty: Type)
    ensures IsName(TypeSpelling(ty))
  {
  }

  /** Concatenation regroups freely. */
  lemma Associative(a: seq<Token>, b: seq<Token>, c: seq<Token>)
    ensures (a + b) + c == a + (b + c)
  {
  }

  /** A non-empty sequence is its first token followed by the others. */
  lemma Cons<T>(ts: seq<T>)
    requires |ts| > 0
    ensures ts == [ts[0]] + ts[1..]
  {
  }

  lemma Cons2(ts: seq<Token>)
    requires |ts| >= 2
    ensures ts == [ts[0], ts[1]] + ts[2..]
  {
  }

  lemma DropOne(t: Token, ts: seq<Token>)
    ensures ([t] + ts)[0] == t && ([t] + ts)[1..] == ts
  {
  }

  lemma DropTwo(t0: Token, t1: Token, ts: seq<Token>)
    ensures ([t0, t1] + ts)[0] == t0 && ([t0, t1] + ts)[1] == t1 && ([t0, t1] + ts)[2..] == ts
  {
  }

  /** `ts` begins with the token `t`. */
  predicate StartsWith(ts: seq<Token>, t: Token)
  {
    |ts| > 0 && ts[0] == t
  }

  /** `ts` begins with an operator of the tier. */
  predicate StartsWithOp(ts: seq<Token>, tier: Tier)
  {
    |ts| > 0 && ts[0].Op? && InTier(ts[0].op, tier)
  }

  /** `ts` begins with one of the eight type names. */
  predicate StartsWithType(ts: seq<Token>)
  {
    |ts| > 0 && ts[0].TypeKw?
  }

  /** The tokens that can begin a `statement_or_expression`. */
  predicate StartsWithStmt(ts: seq<Token>)
  {
    |ts| > 0 && (ts[0].NameTok? || ts[0] == IfKw)
  }

  // ---------------------------------------------------------------------
  // Expressions and conditionals
  // ---------------------------------------------------------------------

  /**
   * `expression_atom`. A call keeps the grammar's shape: an optional first
   * argument and, independently, any number of `, expression` that follow.
   */
  datatype Atom =
    | Var(name: string)
    | Str(literal: string)
    | Num(digits: string)
    | Paren(inner: Expr)
    | Neg(operand: Atom)
    | Call(callee: string, first: Option<Expr>, more: seq<Expr>)

  /**
   * `expression` and `conditional_statement`: an atom, or two operands
   * joined by an operator, in any grouping.
   */
  datatype Expr =
    | Leaf(atom: Atom)
    | Binary(left: Expr, op: BinOp, right: Expr)

  /** Names, numbers and strings are well spelled; parentheses and calls hold expressions. */
  predicate WfAtom(a: Atom)
    decreases a, 2
  {
    match a
    case Var(x) => IsName(x)
    case Str(s) => IsStringLit(s)
    case Num(d) => IsNumber(d)
    case Paren(e) => WfExpr(e, Statements)
    case Neg(b) => WfAtom(b)
    case Call(f, first, more) =>
      && IsName(f)
      && (first.Some? ==> WfExpr(first.value, Statements))
      && forall i :: 0 <= i < |more| ==> WfExpr(more[i], Statements)
  }

  /** A tree of the tier's operators over well-formed atoms, in any grouping. */
  predicate TierExpr(e: Expr, tier: Tier)
    decreases e, 0
  {
    match e
    case Leaf(a) => WfAtom(a)
    case Binary(l, op, r) => InTier(op, tier) && TierExpr(l, tier) && TierExpr(r, tier)
  }

  /** Every right operand is an atom: the grouping `((a op b) op c) ...`. */
  predicate LeftLeaning(e: Expr)
  {
    match e
    case Leaf(_) => true
    case Binary(l, _, r) => r.Leaf? && LeftLeaning(l)
  }

  /** The trees the grammar's `prec.left(1, ...)` admits. */
  predicate WfExpr(e: Expr, tier: Tier)
    decreases e, 1
  {
    TierExpr(e, tier) && LeftLeaning(e)
  }

  function FlattenAtom(a: Atom): (ts: seq<Token>)
    ensures |ts| > 0
    decreases a
  {
    match a
    case Var(x) => [NameTok(x)]
    case Str(s) => [StringTok(s)]
    case Num(d) => [NumberTok(d)]
    case Paren(e) => [LParen] + FlattenExpr(e) + [RParen]
    case Neg(b) => [Op(Sub)] + FlattenAtom(b)
    case Call(f, first, more) => [NameTok(f), LParen] + FlattenFirst(first) + FlattenMore(more) + [RParen]
  }

  function FlattenFirst(first: Option<Expr>): seq<Token>
    decreases first
  {
    match first
    case None => []
    case Some(e) => FlattenExpr(e)
  }

  /** `repeat(seq(",", expression))` */
  function FlattenMore(es: seq<Expr>): seq<Token>
    decreases es
  {
    if es == [] then [] else [Comma] + FlattenExpr(es[0]) + FlattenMore(es[1..])
  }

  function FlattenExpr(e: Expr): (ts: seq<Token>)
    ensures |ts| > 0
    decreases e
  {
    match e
    case Leaf(a) => FlattenAtom(a)
    case Binary(l, op, r) => FlattenExpr(l) + [Op(op)] + FlattenExpr(r)
  }

  // ---------------------------------------------------------------------
  // Statements
  // ---------------------------------------------------------------------

  /** `statement_or_expression`: `variable_assignment` or `if_statement`. */
  datatype Stmt =
    | Assign(target: string, value: Expr)
    | If(cond: Expr, thenBody: seq<Stmt>, thenReturn: Option<Expr>, elseBranch: Option<ElseBranch>)

  /** `ELSE`, then at most one statement, then an optional `return_statment`. */
  datatype ElseBranch = ElseBranch(stmt: Option<Stmt>, ret: Option<Expr>)

  predicate WfReturn(r: Option<Expr>)
  {
    r.Some? ==> WfExpr(r.value, Statements)
  }

  predicate WfStmt(s: Stmt)
    decreases s
  {
    match s
    case Assign(x, e) => IsName(x) && WfExpr(e, Statements)
    case If(c, body, ret, els) =>
      && WfExpr(c, Conditionals)
      && WfStmts(body)
      && WfReturn(ret)
      && (els.Some? ==> WfElse(els.value))
  }

  predicate WfElse(els: ElseBranch)
    decreases els
  {
    (els.stmt.Some? ==> WfStmt(els.stmt.value)) && WfReturn(els.ret)
  }

  predicate WfStmts(ss: seq<Stmt>)
    decreases ss
  {
    ss != [] ==> WfStmt(ss[0]) && WfStmts(ss[1..])
  }

  /** `return_statment`, when present. */
  function FlattenReturn(r: Option<Expr>): seq<Token>
  {
    match r
    case None => []
    case Some(e) => [ReturnKw] + FlattenExpr(e) + [Semicolon]
  }

  function FlattenStmt(s: Stmt): (ts: seq<Token>)
    ensures StartsWithStmt(ts)
    decreases s
  {
    match s
    case Assign(x, e) => [NameTok(x), Op(Eq)] + FlattenExpr(e) + [Semicolon]
    case If(c, body, ret, els) =>
      [IfKw] + (FlattenExpr(c) + ([ThenKw] + (FlattenStmts(body) + (FlattenReturn(ret)
        + (FlattenElse(els) + [EndKw])))))
  }

  function FlattenElse(els: Option<ElseBranch>): seq<Token>
    decreases els
  {
    match els
    case None => []
    case Some(ElseBranch(s, r)) => [ElseKw] + FlattenOptStmt(s) + FlattenReturn(r)
  }

  function FlattenOptStmt(s: Option<Stmt>): seq<Token>
    decreases s
  {
    match s
    case None => []
    case Some(st) => FlattenStmt(st)
  }

  function FlattenStmts(ss: seq<Stmt>): seq<Token>
    decreases ss
  {
    if ss == [] then [] else FlattenStmt(ss[0]) + FlattenStmts(ss[1..])
  }

  // ---------------------------------------------------------------------
  // Declarations, headers, functions and files
  // ---------------------------------------------------------------------

  /** The right-hand side of `assign_to_value` (and, without names, of `default_value`). */
  datatype Value = NumberValue(digits: string) | StringValue(literal: string) | NameValue(name: string)

  predicate WfValue(v: Value)
  {
    match v
    case NumberValue(d) => IsNumber(d)
    case StringValue(s) => IsStringLit(s)
    case NameValue(x) => IsName(x)
  }

  function ValueToken(v: Value): Token
  {
    match v
    case NumberValue(d) => NumberTok(d)
    case StringValue(s) => StringTok(s)
    case NameValue(x) => NameTok(x)
  }

  /** An optional `= value`. */
  function FlattenInit(init: Option<Value>): seq<Token>
  {
    match init
    case None => []
    case Some(v) => [Op(Eq), ValueToken(v)]
  }

  /** One declared variable: `variable_name` and an optional `assign_to_value`. */
  datatype Declarator = Declarator(name: string, init: Option<Value>)

  /** `variable_declaration`: a type and one or more declarators. */
  datatype VarDecl = VarDecl(ty: Type, first: Declarator, more: seq<Declarator>)

  predicate WfDeclarator(d: Declarator)
  {
    IsName(d.name) && (d.init.Some? ==> WfValue(d.init.value))
  }

  predicate WfVarDecl(d: VarDecl)
  {
    WfDeclarator(d.first) && forall i :: 0 <= i < |d.more| ==> WfDeclarator(d.more[i])
  }

  function FlattenDeclarator(d: Declarator): seq<Token>
  {
    [NameTok(d.name)] + FlattenInit(d.init)
  }

  function FlattenMoreDeclarators(ds: seq<Declarator>): seq<Token>
  {
    if ds == [] then [] else [Comma] + FlattenDeclarator(ds[0]) + FlattenMoreDeclarators(ds[1..])
  }

  function FlattenVarDecl(d: VarDecl): seq<Token>
  {
    [TypeKw(d.ty)] + FlattenDeclarator(d.first) + FlattenMoreDeclarators(d.more) + [Semicolon]
  }

  function FlattenVarDecls(ds: seq<VarDecl>): seq<Token>
  {
    if ds == [] then [] else FlattenVarDecl(ds[0]) + FlattenVarDecls(ds[1..])
  }

  /** `function_parameter`: type, `parameter_name`, optional `default_value`. */
  datatype Param = Param(ty: Type, name: string, default: Option<Value>)

  /** A default value is a number or a string, never a name. */
  predicate WfParam(p: Param)
  {
    && IsParameterName(p.name)
    && (p.default.Some? ==> !p.default.value.NameValue? && WfValue(p.default.value))
  }

  function FlattenParam(p: Param): seq<Token>
  {
    [TypeKw(p.ty), NameTok(p.name)] + FlattenInit(p.default)
  }

  function FlattenMoreParams(ps: seq<Param>): seq<Token>
  {
    if ps == [] then [] else [Comma] + FlattenParam(ps[0]) + FlattenMoreParams(ps[1..])
  }

  /** `function_parameters`, absent when the list is empty. */
  function FlattenParams(ps: seq<Param>): seq<Token>
  {
    if ps == [] then [] else FlattenParam(ps[0]) + FlattenMoreParams(ps[1..])
  }

  /** `function_scope` */
  datatype Scope = Public | Private

  /** `function_types`: a declarable type or `VOID`, which is allowed only here. */
  datatype ReturnType = Returns(ty: Type) | Void

  /** `function_definition`, the header line of a function. */
  datatype Header = Header(scope: Option<Scope>, returnType: Option<ReturnType>, name: string, params: seq<Param>)

  predicate WfHeader(h: Header)
  {
    IsName(h.name) && forall i :: 0 <= i < |h.params| ==> WfParam(h.params[i])
  }

  function FlattenScope(s: Option<Scope>): seq<Token>
  {
    match s
    case None => []
    case Some(Public) => [PublicKw]
    case Some(Private) => [PrivateKw]
  }

  function FlattenReturnType(r: Option<ReturnType>): seq<Token>
  {
    match r
    case None => []
    case Some(Returns(t)) => [TypeKw(t)]
    case Some(Void) => [VoidKw]
  }

  /** The header up to its closing parenthesis. */
  function FlattenSignature(h: Header): seq<Token>
  {
    FlattenScope(h.scope) + FlattenReturnType(h.returnType)
      + [FunctionKw, NameTok(h.name), LParen] + FlattenParams(h.params) + [RParen]
  }

  /** The header line ends with a literal newline token. */
  function FlattenHeader(h: Header): seq<Token>
  {
    FlattenSignature(h) + [Newline]
  }

  /** `a_function`: header, declarations, statements, optional return, `END`. */
  datatype Function = Function(header: Header, decls: seq<VarDecl>, body: seq<Stmt>, ret: Option<Expr>)

  predicate WfFunction(f: Function)
  {
    && WfHeader(f.header)
    && (forall i :: 0 <= i < |f.decls| ==> WfVarDecl(f.decls[i]))
    && WfStmts(f.body)
    && WfReturn(f.ret)
  }

  function FlattenFunction(f: Function): seq<Token>
  {
    FlattenHeader(f.header) + FlattenVarDecls(f.decls) + FlattenStmts(f.body) + FlattenReturn(f.ret) + [EndKw]
  }

  predicate WfFile(fs: seq<Function>)
  {
    fs != [] ==> WfFunction(fs[0]) && WfFile(fs[1..])
  }

  /** `source_file`: a sequence of functions and nothing else. */
  function FlattenFile(fs: seq<Function>): seq<Token>
  {
    if fs == [] then [] else FlattenFunction(fs[0]) + FlattenFile(fs[1..])
  }

  /** A successful parse: the tree and the tokens after it. */
  datatype Parsed<T> = Parsed(tree: T, rest: seq<Token>)
}
