# A verified model of tree-sitter-cicode

tree-sitter-cicode parses Cicode, the scripting language of the Citect /
Plant SCADA product. It has two parts. `grammar.js` declares the language.
`src/scanner.c` is an external scanner that reads the text of
documentation-comment elements (`<summary>`, `<param>`, `<returns>`) up to
their closing tags. This project models both parts in Dafny and proves
properties about them.

**The grammar** becomes a deterministic recursive-descent parser over a
token stream. Whitespace and comments are removed from that stream, but the
newline that ends a function header is kept as a `Newline` token. The
modules are:

- `Lexical`: hand-written recognisers for `number`, the three name
  classes, `^`-escaped strings and the three comment forms.
- `Syntax`: tokens, syntax trees, well-formedness, and flattening (the
  token sequence each tree stands for).
- `Chains`: the left fold that turns `atom (op atom)*` into a
  left-associative tree, and back.
- `ExpressionParser`: `expression_atom`, `function_call` and the two
  operator tiers, one for statements and one for conditionals.
- `StatementParser`: assignment, `IF` and `RETURN`.
- `DefinitionParser`: variable declarations, parameters, the function
  header, `a_function` and `source_file`.

Every parse function is sound: it returns a well-formed tree whose
flattening, followed by the unread rest, is exactly its input. Every
production also has a completeness lemma: parsing the flattening of any
well-formed tree gives that tree back. Together these make the grammar
unambiguous (`DefinitionParser.FileGrammarIsUnambiguous`). Property lemmas
pin down the grammar's quirks as written:

- all eight binary operators share one left-associative level;
- the first argument of a call is optional independently of the `, expr`
  repetition;
- `ELSE` holds at most one statement;
- conditions have `expression_atom` leaves, and `NOT` is one of the
  conditional tier's binary operators, not a prefix;
- a source file holds functions only; there are no top-level declarations.

**The scanner** is imperative and is modelled that way. The tree-sitter
lexer is the class `Lexer`: an input string, a position, the marked token
end and the result symbol. `ScanUntilEndTag` and `Scan` are methods with the
source's loops. The character-matching loop of `scan_until_end_tag` is
split out as `MatchEndTag`. Each method is proved against reference
functions (`Closer`, `FinalMark`, `EndOfScan`, `FirstWanted`), and lemmas
prove the properties of those functions. A successful scan ends in front of `</tag>`,
the end tag of the docstring element it was asked for.

## Model

| member | source | states |
|---|---|---|
| Lexical.RunLength | grammar.js:80 | The length of the longest prefix made of characters of a class: every longer prefix is not a run, and the character after it is outside the class. |
| Lexical.NumberHasNoSignOrPoint | grammar.js:80 | A `number` holds no `-`, `+` or `.`. |
| Lexical.NameClassesNest | grammar.js:112 | Every number is name-shaped, and every `function_name`/`variable_name` is a valid `parameter_name`. |
| Lexical.ParameterNamesAreWider | grammar.js:73 | `parameter_name` also admits `-` and `_`: `max_len-2` is a parameter name but not a variable name. |
| Lexical.StringPieces | grammar.js:82 | A string literal splits into plain characters (neither `^` nor `"`) and `^`-escaped characters that spell it back exactly. |
| Lexical.LiteralRoundTrip | grammar.js:82 | Writing pieces as a literal gives a string literal, and splitting it gives the same pieces back. |
| Lexical.StringEndsAtFirstQuote | grammar.js:82 | No string literal extends another: the literal ends at its first unescaped `"`. |
| Lexical.EscapedQuoteDoesNotClose | grammar.js:82 | `"a^"b"` is one literal with an escaped quote; `"a"b"` is no literal. |
| Lexical.BlockCommentCharacterised | grammar.js:41 | A text is a `/* ... */` comment exactly when it opens with `/*`, ends with `*/` and has no `*/` closing earlier. |
| Lexical.BlockCommentEndsAtFirstCloser | grammar.js:41 | No block comment extends another: a block comment ends at its first `*/`. |
| Lexical.BlockEnd | grammar.js:41 | The first position where `*/` closes a block comment, if there is one; no closer lies before it. |
| Lexical.CommentLength | grammar.js:36-43 | The extent of the `comment` token never runs past the input; `CommentLengthIsLongestMatch` states that it is the longest comment prefix. |
| Lexical.CommentLengthIsLongestMatch | grammar.js:36-43 | The length the lexer takes for a comment is a comment and no longer prefix is one; with no such length, no prefix is a comment. |
| Syntax.ReservedWordsAreNameShaped | grammar.js:26-71 | Every reserved word is spelled like a `variable_name`: the word operators (lines 26-29), the scopes and types (lines 59-71), and the keywords of lines 51-57, 105-124 and 213-229. |
| Chains.FlattenBuildLeft | grammar.js:159-166 | Folding a chain of links onto a tree adds exactly the links' tokens after the tree's. |
| Chains.BuildRoundTrip | grammar.js:155-167 | The left-associative tree built from `atom (op atom)*` flattens back to exactly that token sequence. |
| Chains.ChainsAreLeftLeaningTrees | grammar.js:159-166 | Building gives a left-leaning tree whose spine is the chain, and every left-leaning tree is rebuilt from its spine. |
| Chains.FlattenSpine | grammar.js:155-167 | Any expression, however it is grouped, flattens like its spine. |
| Chains.BuildWf | grammar.js:155-167 | A chain of well-formed atoms and operators of one tier builds a well-formed expression of that tier. |
| Chains.SpineWf | grammar.js:199-211 | The spine of an expression of one tier has well-formed atom leaves and operators of that tier only. |
| ExpressionParser.ParseAtom | grammar.js:145-153 | The parsed `expression_atom` is well formed, spells exactly the tokens consumed, and consumes at least one token. |
| ExpressionParser.ParseLinks | grammar.js:159-166 | The `(op atom)*` tail read is well formed for the tier, spells what was consumed, and stops before any operator of the tier. |
| ExpressionParser.ParseChain | grammar.js:155-167 | The chain `atom (op atom)*` read has a well-formed first atom and tier-correct links, spells exactly what was consumed, and stops before any operator of the tier. |
| ExpressionParser.ParseExpr | grammar.js:155-167 | The parsed expression or conditional is well formed for its tier, spells what was consumed, and stops before any operator of the tier. |
| ExpressionParser.ParseCall | grammar.js:182-189 | The parsed call has the given name, well-formed arguments, and spells `name (` followed by the consumed tokens. |
| ExpressionParser.ParseFirst | grammar.js:186 | The optional first argument read is a well-formed expression or absent, and spells exactly what was consumed. |
| ExpressionParser.ParseMore | grammar.js:187 | The `, expression` repetition read holds well-formed expressions, spells exactly what was consumed, and stops before anything but `,`. |
| ExpressionParser.AtomComplete | grammar.js:145-153 | Every well-formed atom is read back from its own tokens. |
| ExpressionParser.ParenComplete | grammar.js:150 | A well-formed parenthesised expression is read back from its own tokens. |
| ExpressionParser.NegComplete | grammar.js:151 | A well-formed negated atom is read back from its own tokens when no `(` follows. |
| ExpressionParser.CallComplete | grammar.js:182-189 | Every well-formed call, with or without a first argument, is read back from its tokens. |
| ExpressionParser.FirstComplete | grammar.js:186 | A present or absent first argument is read back when `,` or `)` follows. |
| ExpressionParser.MoreComplete | grammar.js:187 | Every sequence of `, expression` is read back when `)` follows. |
| ExpressionParser.LinksComplete | grammar.js:159-166 | Every tier-correct `(op atom)*` tail is read back when neither `(` nor an operator of the tier follows. |
| ExpressionParser.ChainComplete | grammar.js:155-167 | Every chain with a well-formed first atom and tier-correct links is read back under the same follow condition. |
| ExpressionParser.ExprComplete | grammar.js:155-167 | Every well-formed expression of a tier is read back from its tokens when no operator of the tier follows. |
| ExpressionParser.ParseGroupsLeft | grammar.js:159-166 | Any grouping of a tier's operators reads back as the left-associative tree of its spine. |
| ExpressionParser.OperatorsShareOneLevel | grammar.js:31-32 | `2 + 3 * 4` parses as `(2 + 3) * 4`. |
| ExpressionParser.UnaryMinusNestsAndBindsTightest | grammar.js:151 | `- - 5` is `-(-(5))`, and `-a - b` is `(-a) - b`. |
| ExpressionParser.FirstArgumentOptionalOnItsOwn | grammar.js:186-187 | `f(, a)` is a call without a first argument, and `f()` is a call without arguments. |
| ExpressionParser.ParenthesesHoldNoConditional | grammar.js:150 | A parenthesised atom holds a statement-tier expression, so a binary conditional in parentheses is no atom. |
| ExpressionParser.ComparisonCutsArithmetic | grammar.js:150 | Read as a statement-tier expression, a binary conditional stops after its first operand, in front of a comparison operator rather than `)`. |
| StatementParser.ParseReturn | grammar.js:229 | The optional `RETURN expr ;` read is well formed and spells exactly what was consumed. |
| StatementParser.ParseStmt | grammar.js:171-180 | The parsed assignment or IF statement is well formed, spells exactly what was consumed, and consumes at least one token. |
| StatementParser.ParseIf | grammar.js:213-228 | The parsed IF statement is well formed and spells `IF` followed by the consumed tokens. |
| StatementParser.ParseStmts | grammar.js:218 | The statement sequence read is well formed, spells what was consumed, and stops where no statement begins. |
| StatementParser.ParseElse | grammar.js:220-226 | The optional ELSE branch read is well formed and spells exactly what was consumed. |
| StatementParser.ParseOptStmt | grammar.js:223 | The statement after ELSE is one well-formed statement or absent, and spells exactly what was consumed. |
| StatementParser.ReturnComplete | grammar.js:229 | Every well-formed optional RETURN is read back from its tokens. |
| StatementParser.StmtComplete | grammar.js:171-180 | Every well-formed statement is read back from its tokens, whatever follows. |
| StatementParser.IfComplete | grammar.js:213-228 | Every well-formed IF statement is read back from the tokens after `IF`. |
| StatementParser.StmtsComplete | grammar.js:218 | Every well-formed statement sequence is read back when no statement follows it. |
| StatementParser.ElseComplete | grammar.js:220-226 | Every well-formed optional ELSE branch is read back when `END` follows. |
| StatementParser.OptStmtComplete | grammar.js:223 | A present or absent statement is read back when no further statement can start. |
| StatementParser.ElseHoldsAtMostOneStatement | grammar.js:223 | An IF whose ELSE branch holds two statements is no statement. |
| StatementParser.ConditionsHaveNoArithmetic | grammar.js:199-211 | An IF whose condition, any well-formed conditional expression, is followed by an arithmetic or bit operator is no statement. |
| StatementParser.EmptyIfIsStatement | grammar.js:213-228 | `IF c THEN END` is an IF statement with no body, no RETURN and no ELSE. |
| DefinitionParser.ValueOf | grammar.js:88-89 | A token is a value exactly when it is a number, a string literal or a name, and the value spells that token. |
| DefinitionParser.ParseInit | grammar.js:86-89 | The optional `= value` spells what was consumed; a name is taken only where names are allowed; it fails exactly when `=` is followed by no acceptable value. |
| DefinitionParser.ParseDeclarator | grammar.js:132-133 | The declarator read, a `variable_name` with an optional `= value`, is well formed and spells exactly what was consumed. |
| DefinitionParser.ParseMoreDeclarators | grammar.js:134-138 | The `, declarator` repetition read holds well-formed declarators, spells exactly what was consumed, and stops before anything but `,`. |
| DefinitionParser.ParseVarDecl | grammar.js:130-141 | The parsed declaration is well formed and spells exactly what was consumed. |
| DefinitionParser.ParseVarDecls | grammar.js:54 | The declarations read are well formed, spell what was consumed, and stop where no type keyword follows. |
| DefinitionParser.ParseParam | grammar.js:91-96 | The parsed parameter is well formed and spells exactly what was consumed. |
| DefinitionParser.ParseMoreParams | grammar.js:102 | The `, parameter` repetition read holds well-formed parameters, spells exactly what was consumed, and stops before anything but `,`. |
| DefinitionParser.ParseParams | grammar.js:99-103 | The parameters read are well formed and spell what was consumed. |
| DefinitionParser.ParseScope | grammar.js:59 | The optional `PUBLIC` or `PRIVATE` read spells exactly what was consumed. |
| DefinitionParser.ParseReturnType | grammar.js:105-110 | The optional return type read spells exactly what was consumed. |
| DefinitionParser.ParseParamList | grammar.js:120-122 | The parameter list read is well formed and spells `(` params `)` exactly as consumed. |
| DefinitionParser.ParseSignature | grammar.js:114-122 | The parsed header is well formed and spells the consumed tokens up to its `)`. |
| DefinitionParser.ParseHeader | grammar.js:114-124 | The parsed header is well formed and spells the consumed tokens up to and including the newline. |
| DefinitionParser.ParseFunction | grammar.js:51-58 | The parsed function is well formed, spells exactly what was consumed, and consumes at least one token. |
| DefinitionParser.ParseSourceFile | grammar.js:22 | A parsed source file is a well-formed sequence of functions that spells the whole input. |
| DefinitionParser.VarDeclComplete | grammar.js:130-141 | Every well-formed declaration is read back from its tokens. |
| DefinitionParser.InitComplete | grammar.js:86-89 | A present `= value`, with a name only where names are allowed, or an absent one before anything but `=`, is read back. |
| DefinitionParser.DeclaratorComplete | grammar.js:132-133 | Every well-formed declarator is read back when `,` or `;` follows. |
| DefinitionParser.MoreDeclaratorsComplete | grammar.js:134-138 | Every sequence of `, declarator` is read back when `;` follows. |
| DefinitionParser.VarDeclsComplete | grammar.js:54 | Every sequence of well-formed declarations is read back when no type name follows. |
| DefinitionParser.ParamsComplete | grammar.js:99-103 | Every well-formed parameter sequence is read back when `)` follows. |
| DefinitionParser.ParamComplete | grammar.js:91-96 | Every well-formed parameter is read back when `,` or `)` follows. |
| DefinitionParser.MoreParamsComplete | grammar.js:102 | Every sequence of `, parameter` is read back when `)` follows. |
| DefinitionParser.SignatureComplete | grammar.js:114-122 | Every well-formed header is read back from its tokens up to `)`. |
| DefinitionParser.ScopeComplete | grammar.js:59 | A present or absent scope is read back when no scope keyword follows. |
| DefinitionParser.ReturnTypeComplete | grammar.js:105-110 | A present or absent return type is read back when `FUNCTION` follows. |
| DefinitionParser.HeaderComplete | grammar.js:113-124 | Every well-formed header, newline included, is read back whatever follows. |
| DefinitionParser.ParamListComplete | grammar.js:120-122 | Every sequence of well-formed parameters in `(` `)` is read back from its tokens. |
| DefinitionParser.FunctionComplete | grammar.js:51-58 | Every well-formed function is read back from its tokens. |
| DefinitionParser.FileComplete | grammar.js:22 | Every well-formed sequence of functions is read back from its tokens. |
| DefinitionParser.FileGrammarIsUnambiguous | grammar.js:22 | Two function sequences with the same tokens are equal. |
| DefinitionParser.HeaderNeedsNewline | grammar.js:123 | A header not followed by a newline is neither a header nor the start of a function. |
| DefinitionParser.VoidOnlyAsReturnType | grammar.js:105-110 | `VOID` starts no declaration, is no statement after a header, and cannot open a parameter list. |
| DefinitionParser.VoidEndsNoFunctionBody | grammar.js:51-58 | A well-formed header followed by `VOID` is the start of no function. |
| DefinitionParser.VoidStartsNoParameter | grammar.js:114-122 | `FUNCTION name ( VOID ...` is no signature: the parameter list cannot open with `VOID`. |
| DefinitionParser.DefaultIsNumberOrString | grammar.js:86-89 | A parameter default that is a name is refused, while a declaration may assign a name. |
| DefinitionParser.DeclarationsComeFirst | grammar.js:51-58 | After a header, any declarations and at least one statement, a further declaration makes the input no function. |
| DefinitionParser.SourceFileHoldsOnlyFunctions | grammar.js:45-49 | Input that opens with a declaration or a statement is no source file. |
| DefinitionParser.DeclarationIsNoSourceFile | grammar.js:45-49 | Input that opens with a well-formed variable declaration is no source file. |
| DefinitionParser.StatementIsNoSourceFile | grammar.js:45-49 | Input that opens with a well-formed statement is no source file. |
| DocstringScanner.Index | src/scanner.c:8-12 | Each external token has an index below three in the table of valid symbols. |
| DocstringScanner.IndexInjective | src/scanner.c:8-12 | Distinct tokens have distinct indices. |
| DocstringScanner.TagTableWellFormed | src/scanner.c:21-25 | The table has three rows; row i holds the token with index i; each end tag is a non-empty C string ending in `>`. |
| DocstringScanner.MatchFrom | src/scanner.c:39-43 | The count of matched tag characters: all of them agree with the input, and the next one is missing or differs. |
| DocstringScanner.MatchEndTag | src/scanner.c:39-43 | The inner loop consumes exactly the longest prefix of the end tag that the input spells, and changes nothing else. |
| DocstringScanner.Step | src/scanner.c:35-53 | Every round moves the cursor forward and stays within the input: exactly one past an ordinary character or a `<` in last position, at least two past any other `<`. |
| DocstringScanner.Closer | src/scanner.c:27-57 | If the scan stops at a closing tag, it stops at or after its start, where `</` and the whole tag are spelled. |
| DocstringScanner.FinalMark | src/scanner.c:32-33 | The marked token end is either the earlier mark or the position of a `<` in the scanned text. |
| DocstringScanner.ScanUntilEndTag | src/scanner.c:27-57 | Returns true exactly when a closer is found after at least one content character. It leaves the cursor past the closer or at end of input, and marks the token end as the reference scan does. |
| DocstringScanner.FirstWanted | src/scanner.c:63-69 | The first table row whose token is valid: no earlier row's token is, and there is none exactly when no row's token is valid. |
| DocstringScanner.Scan | src/scanner.c:59-81 | With no valid tag it fails and changes nothing. Otherwise it scans for the first valid tag only, succeeds exactly when that scan returns true, and then sets the result symbol to that tag's token. |
| DocstringScanner.CloserSpelling | src/scanner.c:36-46 | A closer at a position is exactly the characters `</` followed by the whole tag, matched case for case. |
| DocstringScanner.MarkAtCloser | src/scanner.c:32-47 | When a closer is found, the token end is marked at that closer's `<`, so the content excludes the closer. |
| DocstringScanner.NoAngleNoCloser | src/scanner.c:30-56 | Text without `<` holds no closer: the scan runs to the end of input, fails and leaves the mark alone. |
| DocstringScanner.CloserAfterPlainText | src/scanner.c:30-48 | A closer preceded only by text without `<` is the one the scan stops at. |
| DocstringScanner.AngleSwallowsNextCharacter | src/scanner.c:35-53 | After a `<` not followed by `/`, the scan resumes two characters on, having marked that `<`. |
| DocstringScanner.MismatchSwallowsBreakingCharacter | src/scanner.c:39-53 | After `</` and a partial tag, the character that broke the match is skipped as well. |
| DocstringScanner.LoneAngleHidesCloser | src/scanner.c:35-53 | For every end tag without `<`, the input `<</` followed by the tag (`<</summary>`, say) holds no closer the scan can see: the first `<` swallows the second. |
| DocstringScanner.PlainCharacterBeforeCloser | src/scanner.c:30-48 | For every character other than `<` and every end tag, that character followed by `</` and the tag has its closer found at position 1. |
| DocstringScanner.EmptyContentRejected | src/scanner.c:46-47 | A closer right at the start is found at the start, so the content is empty and the scan answers false. |
| DocstringScanner.FirstWantedSkipsUnwantedTags | src/scanner.c:63-69 | With valid symbols `[false, true, true]` only the `param>` row is tried; with all valid, `summary>`; with none, no row. |
| DocstringScanner.Create | src/scanner.c:83 | The scanner allocates no payload. |
| DocstringScanner.Serialize | src/scanner.c:89-94 | Serialising writes nothing and reports length zero. |
| DocstringScanner.Deserialize | src/scanner.c:96-102 | Deserialising leaves the payload as it was, whatever the buffer holds. |
| DocstringScanner.RestoreGivesFreshScanner | src/scanner.c:83-102 | Restoring from any buffer gives back the freshly created scanner. |

## Left out

- Whitespace and comments between tokens (the `extras`, grammar.js:13-19) are taken as already removed. The comment recognisers model what a comment is, not where it may occur.
- Lexing into tokens is not modelled: tokens arrive classified. A reserved word is a keyword token and never a name. The model does not cover how tree-sitter's lexer decides between the two, and `ReservedWordsAreNameShaped` states why that decision is needed.
- A string literal is one token. The grammar's `string` is a `seq` of separate pieces (grammar.js:82), so extras may appear between them. In particular the `comment` extra (grammar.js:36-43) can compete by longest match at a `!` or `//` inside the quotes, as in `"Done!"` or `"a // b"`. `Lexical.IsStringLit` accepts such text whole, and the model does not capture that competition.
- The regex `.` is taken as any character except a newline. No regex engine is modelled.
- The tree-sitter runtime is not modelled: the GLR parse tables, the conflict resolution these rules need, error recovery and error nodes.
- `conditional_atom`, `variable_declarations` and `expression_variable_assignments` are not reached by any rule or only rename another one (grammar.js:143,169,191-197), so they have no model of their own.
- Nothing connects the grammar to the scanner, because grammar.js declares no `externals`. The scanner is modelled on its own.
- The scanner's `destroy` hook frees nothing and has no model. There is no memory in the model.
- DocstringScanner.Scan: does not model that tree-sitter discards the lexer's position when the scanner answers false.
- DocstringScanner.ScanUntilEndTag: the end tag must hold no NUL character, as a C string cannot. The lexer's NUL lookahead at end of input is modelled as a character.
- SELECT CASE, FOR, WHILE, arrays, GLOBAL/MODULE/LOCAL scopes, format specifiers and any grammar for the text inside docstring tags are not part of grammar.js or src/scanner.c.
- Package.swift, the Swift and Go bindings and their smoke tests carry no logic of the parser and are not part of this model.
