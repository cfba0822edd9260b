/**
 * The lexical rules of the Cicode grammar (grammar.js): numbers, the three
 * name classes, `^`-escaped strings and the three comment forms, each as a
 * hand-written recogniser over characters, together with the longest-match
 * scanners the tree-sitter lexer applies to them.
 */
module Lexical {
  import opened Wrappers

  // ---------------------------------------------------------------------
  // Character classes
  // ---------------------------------------------------------------------

  /** `[0-9]` */
  predicate IsDigit(c: char) { '0' <= c <= '9' }

  /** `[0-9A-Za-z]`, the class of function and variable names */
  predicate IsAlnum(c: char) { IsDigit(c) || 'A' <= c <= 'Z' || 'a' <= c <= 'z' }

  /** `[0-9A-Za-z-_]`, the class of parameter names */
  predicate IsParamChar(c: char) { IsAlnum(c) || c == '-' || c == '_' }

  /** The class of the regex `.`: every character but a line feed */
  predicate NotNewline(c: char) { c != '\n' }

  // ---------------------------------------------------------------------
  // Numbers and names
  // ---------------------------------------------------------------------

  /** A nonempty run of characters of one class (the regex `[...]+`). */
  predicate IsRun(s: string, inClass: char -> bool)
  {
    |s| > 0 && forall i :: 0 <= i < |s| ==> inClass(s[i])
  }

  /** `number`: `/[0-9]+/` */
  predicate IsNumber(s: string) { IsRun(s, IsDigit) }

  /** `function_name` and `variable_name`: `/[0-9A-Za-z]+/` */
  predicate IsName(s: string) { IsRun(s, IsAlnum) }

  /** `parameter_name`: `/[0-9A-Za-z-_]+/` */
  predicate IsParameterName(s: string) { IsRun(s, IsParamChar) }

  /**
   * The length of the longest prefix of `s` made of characters of the class:
   * the extent of a `[...]+` token at the start of `s` (0 when there is none).
   */
  function RunLength(s: string, inClass: char -> bool): (n: nat)
    ensures n <= |s|
    ensures n > 0 ==> IsRun(s[..n], inClass)
    ensures n < |s| ==> !inClass(s[n])
    ensures forall k :: n < k <= |s| ==> !IsRun(s[..k], inClass)
    decreases |s|
  {
    if |s| == 0 || !inClass(s[0]) then 0
    else
      var m := RunLength(s[1..], inClass);
      assert forall i :: 1 <= i < m + 1 ==> s[i] == s[1..][i - 1];
      assert forall k :: m + 1 < k <= |s| ==> s[..k][m + 1] == s[1..][m];
      m + 1
  }

  /** A number has no sign and no decimal point. */
  lemma NumberHasNoSignOrPoint(s: string)
    requires IsNumber(s)
    ensures '-' !in s && '+' !in s && '.' !in s
  {
  }

  /**
   * The three name rules are nested: every number spelling is also a name,
   * and every name is also a parameter name.
   */
  lemma NameClassesNest(s: string)
    ensures IsNumber(s) ==> IsName(s)
    ensures IsName(s) ==> IsParameterName(s)
  {
  }

  /** Parameter names are strictly wider than names: they admit `-` and `_`. */
  lemma ParameterNamesAreWider()
    ensures IsParameterName("max_len-2") && !IsName("max_len-2")
  {
    assert !IsAlnum("max_len-2"[3]);
  }

  // ---------------------------------------------------------------------
  // Strings
  // ---------------------------------------------------------------------

  /**
   * One repetition of the body of `string`: a plain character
   * (`/[^\^"]/`) or a `^` escape followed by any character but a line
   * feed (`/\^./`).
   */
  datatype StringPiece = Plain(c: char) | Escaped(c: char)

  predicate PieceOk(p: StringPiece)
  {
    match p
    case Plain(c) => c != '^' && c != '"'
    case Escaped(c) => NotNewline(c)
  }

  predicate PiecesOk(ps: seq<StringPiece>)
  {
    forall i :: 0 <= i < |ps| ==> PieceOk(ps[i])
  }

  function PieceText(p: StringPiece): string
  {
    match p
    case Plain(c) => [c]
    case Escaped(c) => ['^', c]
  }

  function PiecesText(ps: seq<StringPiece>): string
  {
    if ps == [] then [] else PieceText(ps[0]) + PiecesText(ps[1..])
  }

  /** The literal spelled by a sequence of pieces: `"` pieces `"`. */
  function Literal(ps: seq<StringPiece>): string
  {
    ['"'] + PiecesText(ps) + ['"']
  }

  /** Recogniser for what follows the opening quote of a string literal. */
  predicate StringTail(s: string)
    decreases |s|
  {
    if |s| == 0 then false
    else if s[0] == '"' then |s| == 1
    else if s[0] == '^' then |s| >= 2 && NotNewline(s[1]) && StringTail(s[2..])
    else StringTail(s[1..])
  }

  /** Recogniser for the `string` rule. */
  predicate IsStringLit(s: string)
  {
    |s| >= 1 && s[0] == '"' && StringTail(s[1..])
  }

  /** The pieces of a recognised tail, in order. */
  function TailPieces(s: string): (ps: seq<StringPiece>)
    requires StringTail(s)
    ensures PiecesOk(ps) && PiecesText(ps) + ['"'] == s
    decreases |s|
  {
    if s[0] == '"' then []
    else if s[0] == '^' then
      var rest := TailPieces(s[2..]);
      assert PiecesText([Escaped(s[1])] + rest) == ['^', s[1]] + PiecesText(rest);
      [Escaped(s[1])] + rest
    else
      var rest := TailPieces(s[1..]);
      assert PiecesText([Plain(s[0])] + rest) == [s[0]] + PiecesText(rest);
      [Plain(s[0])] + rest
  }

  /**
   * Decoding a recognised literal into its pieces: every recognised
   * literal is the spelling of a sequence of well-formed pieces.
   */
  function StringPieces(s: string): (ps: seq<StringPiece>)
    requires IsStringLit(s)
    ensures PiecesOk(ps) && Literal(ps) == s
  {
    TailPieces(s[1..])
  }

  lemma {:induction false} TailOfPieces(ps: seq<StringPiece>)
    requires PiecesOk(ps)
    ensures StringTail(PiecesText(ps) + ['"'])
    ensures TailPieces(PiecesText(ps) + ['"']) == ps
  {
    if ps != [] {
      TailOfPieces(ps[1..]);
      var s := PiecesText(ps) + ['"'];
      var rest := PiecesText(ps[1..]) + ['"'];
      assert s == PieceText(ps[0]) + rest;
      match ps[0]
      case Plain(c) =>
        assert s[1..] == rest;
      case Escaped(c) =>
        assert s[2..] == rest;
    }
  }

  /**
   * Every sequence of well-formed pieces spells a recognised literal, and
   * decoding that literal gives the pieces back.
   */
  lemma LiteralRoundTrip(ps: seq<StringPiece>)
    requires PiecesOk(ps)
    ensures IsStringLit(Literal(ps))
    ensures StringPieces(Literal(ps)) == ps
  {
    TailOfPieces(ps);
    assert Literal(ps)[1..] == PiecesText(ps) + ['"'];
  }

  lemma {:induction false} StringTailPrefixFree(s: string, t: string)
    requires StringTail(s) && StringTail(s + t)
    ensures t == []
    decreases |s|
  {
    if s[0] == '"' {
      assert (s + t)[0] == '"';
    } else if s[0] == '^' {
      assert (s + t)[2..] == s[2..] + t;
      StringTailPrefixFree(s[2..], t);
    } else {
      assert (s + t)[1..] == s[1..] + t;
      StringTailPrefixFree(s[1..], t);
    }
  }

  /**
   * A string literal ends at its first unescaped `"`: no literal is a
   * proper prefix of another.
   */
  lemma StringEndsAtFirstQuote(s: string, t: string)
    requires IsStringLit(s) && IsStringLit(s + t)
    ensures t == []
  {
    assert (s + t)[1..] == s[1..] + t;
    StringTailPrefixFree(s[1..], t);
  }

  /** `^"` is a quote inside the literal and does not close it. */
  lemma EscapedQuoteDoesNotClose()
    ensures IsStringLit("\"a^\"b\"")
    ensures StringPieces("\"a^\"b\"") == [Plain('a'), Escaped('"'), Plain('b')]
    ensures !IsStringLit("\"a\"b\"")
  {
    var ps := [Plain('a'), Escaped('"'), Plain('b')];
    assert Literal(ps) == "\"a^\"b\"";
    LiteralRoundTrip(ps);
    assert !StringTail("a\"b\""[1..]);
  }

  // ---------------------------------------------------------------------
  // Comments
  // ---------------------------------------------------------------------

  // `seq("//", /.*/)`
  predicate IsLineComment(s: string)
  {
    |s| >= 2 && s[0] == '/' && s[1] == '/' && forall i :: 2 <= i < |s| ==> NotNewline(s[i])
  }

  // `seq("!", /.*/)`
  predicate IsBangComment(s: string)
  {
    |s| >= 1 && s[0] == '!' && forall i :: 1 <= i < |s| ==> NotNewline(s[i])
  }

  // The automaton of `[^*]*\*+([^/*][^*]*\*+)*` followed by `/`, run on
  // what follows the opening slash-star; `afterStar` records that the
  // previous character was a `*` of the body. A `/` seen after such a star
  // closes the comment.
  predicate BlockRest(s: string, afterStar: bool)
    decreases |s|
  {
    if |s| == 0 then false
    else if afterStar && s[0] == '/' then |s| == 1
    else BlockRest(s[1..], s[0] == '*')
  }

  // `seq("/*", /[^*]*\*+([^/*][^*]*\*+)*/, "/")`
  predicate IsBlockComment(s: string)
  {
    |s| >= 2 && s[0] == '/' && s[1] == '*' && BlockRest(s[2..], false)
  }

  /** The `comment` token: any of the three forms. */
  predicate IsComment(s: string)
  {
    IsLineComment(s) || IsBangComment(s) || IsBlockComment(s)
  }

  /**
   * `s[m]` is a `/` closing a block comment: it follows a `*` that is not
   * the star of the opening slash-star.
   */
  predicate ClosesAt(s: string, m: int)
  {
    3 <= m < |s| && s[m - 1] == '*' && s[m] == '/'
  }

  lemma {:induction false} BlockRestCharacterised(s: string, j: nat)
    requires 2 <= j <= |s|
    ensures BlockRest(s[j..], j > 2 && s[j - 1] == '*') <==>
            (j < |s| && ClosesAt(s, |s| - 1) && forall m :: j <= m < |s| - 1 ==> !ClosesAt(s, m))
    decreases |s| - j
  {
    if j < |s| {
      var st := j > 2 && s[j - 1] == '*';
      if st && s[j] == '/' {
        assert ClosesAt(s, j);
      } else {
        assert s[j..][1..] == s[j + 1..];
        BlockRestCharacterised(s, j + 1);
        assert !ClosesAt(s, j);
      }
    }
  }

  // A block comment is slash-star, then text with no star-slash pair after
  // the opener, then star-slash: it ends at the first closer.
  lemma BlockCommentCharacterised(s: string)
    ensures IsBlockComment(s) <==>
            (|s| >= 4 && s[0] == '/' && s[1] == '*' && ClosesAt(s, |s| - 1) &&
             forall m :: 2 <= m < |s| - 1 ==> !ClosesAt(s, m))
  {
    if |s| >= 2 && s[0] == '/' && s[1] == '*' {
      BlockRestCharacterised(s, 2);
    }
  }

  /** The body of a block comment never holds its closer: no block comment is a proper prefix of another. */
  lemma BlockCommentEndsAtFirstCloser(s: string, t: string)
    requires IsBlockComment(s) && IsBlockComment(s + t)
    ensures t == []
  {
    BlockCommentCharacterised(s);
    BlockCommentCharacterised(s + t);
    if t != [] {
      assert ClosesAt(s + t, |s| - 1);
    }
  }

  /** The position just past the first closing `/` at or after `m`. */
  function BlockEnd(s: string, m: nat): (r: Option<nat>)
    requires m >= 3
    ensures r.Some? ==> m < r.value <= |s| && ClosesAt(s, r.value - 1)
    ensures r.Some? ==> forall i :: m <= i < r.value - 1 ==> !ClosesAt(s, i)
    ensures r.None? ==> forall i :: m <= i < |s| ==> !ClosesAt(s, i)
    decreases |s| - m
  {
    if m >= |s| then None
    else if ClosesAt(s, m) then Some(m + 1)
    else BlockEnd(s, m + 1)
  }

  /**
   * The extent of the `comment` token at the start of `s` under longest
   * match, or None when no prefix of `s` is a comment.
   */
  function CommentLength(s: string): (r: Option<nat>)
    ensures r.Some? ==> r.value <= |s|
  {
    if |s| >= 2 && s[0] == '/' && s[1] == '/' then Some(2 + RunLength(s[2..], NotNewline))
    else if |s| >= 1 && s[0] == '!' then Some(1 + RunLength(s[1..], NotNewline))
    else if |s| >= 2 && s[0] == '/' && s[1] == '*' then BlockEnd(s, 3)
    else None
  }

  /**
   * `//` and `!` comments run to the end of the line, a block comment to its
   * first closer; the token found is a comment and no longer prefix is one.
   */
  lemma CommentLengthIsLongestMatch(s: string)
    ensures CommentLength(s).Some? ==> IsComment(s[..CommentLength(s).value])
    ensures CommentLength(s).Some? ==>
              forall k :: CommentLength(s).value < k <= |s| ==> !IsComment(s[..k])
    ensures CommentLength(s).None? ==> forall k :: 0 <= k <= |s| ==> !IsComment(s[..k])
  {
    var r := CommentLength(s);
    if |s| >= 2 && s[0] == '/' && s[1] == '/' {
      var n := r.value;
      assert forall i :: 2 <= i < n ==> s[i] == s[2..][i - 2];
      assert IsLineComment(s[..n]);
      forall k | n < k <= |s| ensures !IsComment(s[..k]) {
        assert s[..k][n] == s[2..][n - 2];
        BlockCommentCharacterised(s[..k]);
      }
    } else if |s| >= 1 && s[0] == '!' {
      var n := r.value;
      assert forall i :: 1 <= i < n ==> s[i] == s[1..][i - 1];
      assert IsBangComment(s[..n]);
      forall k | n < k <= |s| ensures !IsComment(s[..k]) {
        assert s[..k][n] == s[1..][n - 1];
        BlockCommentCharacterised(s[..k]);
      }
    } else if |s| >= 2 && s[0] == '/' && s[1] == '*' {
      if r.Some? {
        var n := r.value;
        BlockCommentCharacterised(s[..n]);
        assert forall i :: 2 <= i < n - 1 ==> (ClosesAt(s[..n], i) <==> ClosesAt(s, i));
        forall k | n < k <= |s| ensures !IsComment(s[..k]) {
          BlockCommentCharacterised(s[..k]);
          assert ClosesAt(s[..k], n - 1);
        }
      } else {
        forall k | 0 <= k <= |s| ensures !IsComment(s[..k]) {
          BlockCommentCharacterised(s[..k]);
          if k >= 4 {
            assert !ClosesAt(s, k - 1);
          }
        }
      }
    } else {
      forall k | 0 <= k <= |s| ensures !IsComment(s[..k]) {
        BlockCommentCharacterised(s[..k]);
      }
    }
  }
}
