/**
 * The external scanner for documentation comments.  Given the tags the
 * parser may accept, it consumes the text of a `<summary>`, `<param>` or
 * `<returns>` element up to its closing tag and reports which content
 * token it read.  The scanner keeps no state between calls.
 */
module DocstringScanner {
  import opened Wrappers

  // ---------------------------------------------------------------------
  // Tokens and the tag table
  // ---------------------------------------------------------------------

  /** The external tokens, in the order of the grammar's token enumeration. */
  datatype ExternalToken = SummaryContent | ParamContent | ReturnsContent

  /** The position of a token in the parser's table of valid symbols. */
  function Index(t: ExternalToken): (n: nat)
    ensures n < 3
  {
    match t
    case SummaryContent => 0
    case ParamContent => 1
    case ReturnsContent => 2
  }

  /** Distinct tokens have distinct indices. */
  lemma IndexInjective(t: ExternalToken, u: ExternalToken)
    ensures Index(t) == Index(u) <==> t == u
  {
  }

  /** One row of the tag table: the token and its closing tag without the leading `</`. */
  datatype TagSpec = TagSpec(token: ExternalToken, endTag: string)

  const Tags: seq<TagSpec> := [
    TagSpec(SummaryContent, "summary>"),
    TagSpec(ParamContent, "param>"),
    TagSpec(ReturnsContent, "returns>")
  ]

  /** A C string holds no NUL character before its terminator. */
  predicate NoNul(s: string)
  {
    forall i :: 0 <= i < |s| ==> s[i] != '\0'
  }

  /** Every tag is a non-empty C string ending in `>`, and row i holds the token with index i. */
  lemma TagTableWellFormed()
    ensures |Tags| == 3
    ensures forall i :: 0 <= i < |Tags| ==> Index(Tags[i].token) == i
    ensures forall i :: 0 <= i < |Tags| ==> NoNul(Tags[i].endTag) && |Tags[i].endTag| > 0
    ensures forall i :: 0 <= i < |Tags| ==> Tags[i].endTag[|Tags[i].endTag| - 1] == '>'
  {
    assert NoNul(Tags[0].endTag);
    assert NoNul(Tags[1].endTag);
    assert NoNul(Tags[2].endTag);
  }

  // ---------------------------------------------------------------------
  // The lexer interface
  // ---------------------------------------------------------------------

  /**
   * The part of the parser's lexer the scanner uses: the input, the
   * current position, the end of the token as last marked, and the
   * symbol reported.  An end that was never marked is `None`.
   */
  class Lexer {
    const input: string
    var pos: nat
    var markedEnd: Option<nat>
    var resultSymbol: Option<ExternalToken>

    predicate Valid()
      reads this
    {
      pos <= |input|
    }

    constructor (s: string)
      ensures Valid()
      ensures input == s && pos == 0 && markedEnd == None && resultSymbol == None
    {
      input := s;
      pos := 0;
      markedEnd := None;
      resultSymbol := None;
    }

    predicate Eof()
      reads this
    {
      pos >= |input|
    }

    /** The next character, or NUL once the input is exhausted. */
    function Lookahead(): (c: char)
      reads this
      ensures !Eof() ==> c == input[pos]
      ensures Eof() ==> c == '\0'
    {
      if pos < |input| then input[pos] else '\0'
    }

    /** Consumes one character; at the end of the input nothing happens. */
    method Advance()
      modifies this
      ensures pos == if old(pos) < |input| then old(pos) + 1 else old(pos)
      ensures markedEnd == old(markedEnd) && resultSymbol == old(resultSymbol)
    {
      if pos < |input| {
        pos := pos + 1;
      }
    }

    /** Ends the token at the current position. */
    method MarkEnd()
      modifies this
      ensures markedEnd == Some(old(pos))
      ensures pos == old(pos) && resultSymbol == old(resultSymbol)
    {
      markedEnd := Some(pos);
    }
  }

  // ---------------------------------------------------------------------
  // The reference definition of one scan
  // ---------------------------------------------------------------------

  /** How many characters of `tag`, from its i-th on, the input spells from `p + i` on. */
  function MatchFrom(s: string, p: nat, tag: string, i: nat): (r: nat)
    requires i <= |tag| && p + i <= |s|
    ensures i <= r <= |tag| && p + r <= |s|
    ensures forall k :: i <= k < r ==> s[p + k] == tag[k]
    ensures r < |tag| ==> p + r == |s| || s[p + r] != tag[r]
    decreases |tag| - i
  {
    if i == |tag| || p + i == |s| || s[p + i] != tag[i] then i
    else MatchFrom(s, p, tag, i + 1)
  }

  function MatchLen(s: string, p: nat, tag: string): nat
    requires p <= |s|
  {
    MatchFrom(s, p, tag, 0)
  }

  /** At `p` the input holds `</` followed by the whole tag. */
  predicate CloserAt(s: string, p: nat, tag: string)
  {
    p + 1 < |s| && s[p] == '<' && s[p + 1] == '/' && MatchLen(s, p + 2, tag) == |tag|
  }

  /**
   * Where the next round of the scanning loop starts when the round
   * starting at `p` found no closing tag: one past the character, or,
   * after a `<`, one past the character that broke the match.
   */
  function Step(s: string, p: nat, tag: string): (r: nat)
    requires p < |s|
    ensures p < r <= |s|
    ensures s[p] != '<' || p + 1 == |s| ==> r == p + 1
    ensures s[p] == '<' && p + 1 < |s| ==> r >= p + 2
  {
    if s[p] != '<' || p + 1 == |s| then p + 1
    else if s[p + 1] != '/' then p + 2
    else
      var m := MatchLen(s, p + 2, tag);
      if p + 2 + m < |s| then p + 3 + m else p + 2 + m
  }

  /** The position of the `<` of the closing tag the scan stops at, if it finds one. */
  function Closer(s: string, p: nat, tag: string): (r: Option<nat>)
    requires p <= |s|
    ensures r.Some? ==> p <= r.value && CloserAt(s, r.value, tag)
    decreases |s| - p
  {
    if p == |s| then None
    else if CloserAt(s, p, tag) then Some(p)
    else Closer(s, Step(s, p, tag), tag)
  }

  /** The token end marked when the scan stops: at the last `<` it met, or the old mark. */
  function FinalMark(s: string, p: nat, tag: string, mark: Option<nat>): (r: Option<nat>)
    requires p <= |s|
    ensures r == mark || (r.Some? && p <= r.value < |s| && s[r.value] == '<')
    decreases |s| - p
  {
    if p == |s| then mark
    else if CloserAt(s, p, tag) then Some(p)
    else FinalMark(s, Step(s, p, tag), tag, if s[p] == '<' then Some(p) else mark)
  }

  /** Where the scan leaves the lexer: past the closing tag, or at the end of the input. */
  function EndOfScan(s: string, p: nat, tag: string): nat
    requires p <= |s|
  {
    match Closer(s, p, tag)
    case Some(q) => q + 2 + |tag|
    case None => |s|
  }

  // ---------------------------------------------------------------------
  // The scanner
  // ---------------------------------------------------------------------

  /**
   * Consumes text up to the closing tag `</` + `endTag`.  The answer is
   * true only when the closing tag was found after at least one
   * character of content; the token then ends at the closing tag's `<`.
   */
  method ScanUntilEndTag(lexer: Lexer, endTag: string) returns (advanced: bool)
    requires lexer.Valid() && NoNul(endTag)
    modifies lexer
    ensures lexer.Valid()
    ensures var c := Closer(lexer.input, old(lexer.pos), endTag);
            advanced <==> c.Some? && c.value > old(lexer.pos)
    ensures lexer.pos == EndOfScan(lexer.input, old(lexer.pos), endTag)
    ensures lexer.markedEnd == FinalMark(lexer.input, old(lexer.pos), endTag, old(lexer.markedEnd))
    ensures lexer.resultSymbol == old(lexer.resultSymbol)
  {
    ghost var s, p0, m0 := lexer.input, lexer.pos, lexer.markedEnd;
    advanced := false;
    while !lexer.Eof()
      invariant lexer.input == s && p0 <= lexer.pos <= |s|
      invariant advanced <==> lexer.pos > p0
      invariant Closer(s, p0, endTag) == Closer(s, lexer.pos, endTag)
      invariant FinalMark(s, p0, endTag, m0) == FinalMark(s, lexer.pos, endTag, lexer.markedEnd)
      invariant lexer.resultSymbol == old(lexer.resultSymbol)
      decreases |s| - lexer.pos
    {
      ghost var start, mark := lexer.pos, lexer.markedEnd;
      if lexer.Lookahead() == '<' {
        lexer.MarkEnd();
        lexer.Advance();
        if lexer.Lookahead() == '/' {
          lexer.Advance();
          var i := MatchEndTag(lexer, endTag);
          if i == |endTag| {
            ClosingTagHere(s, start, endTag, mark);
            return;
          }
          MismatchAfterSlash(s, start, endTag, i);
        } else {
          assert lexer.pos == start + 1 && (start + 1 == |s| || s[start + 1] != '/');
        }
      }
      advanced := true;
      lexer.Advance();
      assert lexer.pos == Step(s, start, endTag);
      NoClosingTagHere(s, start, endTag, mark);
    }
    advanced := false;
  }

  /** Consumes the longest prefix of `endTag` that the input spells at the current position. */
  method MatchEndTag(lexer: Lexer, endTag: string) returns (i: nat)
    requires lexer.Valid() && NoNul(endTag)
    modifies lexer
    ensures lexer.Valid()
    ensures i == MatchLen(lexer.input, old(lexer.pos), endTag)
    ensures lexer.pos == old(lexer.pos) + i
    ensures lexer.markedEnd == old(lexer.markedEnd) && lexer.resultSymbol == old(lexer.resultSymbol)
  {
    ghost var s, p := lexer.input, lexer.pos;
    i := 0;
    while i < |endTag| && lexer.Lookahead() == endTag[i]
      invariant lexer.input == s && lexer.pos == p + i <= |s|
      invariant i <= |endTag|
      invariant MatchLen(s, p, endTag) == MatchFrom(s, p, endTag, i)
      invariant lexer.markedEnd == old(lexer.markedEnd) && lexer.resultSymbol == old(lexer.resultSymbol)
      decreases |endTag| - i
    {
      lexer.Advance();
      i := i + 1;
    }
  }

  lemma ClosingTagHere(s: string, p: nat, tag: string, mark: Option<nat>)
    requires CloserAt(s, p, tag)
    ensures Closer(s, p, tag) == Some(p) && FinalMark(s, p, tag, mark) == Some(p)
  {
  }

  lemma MismatchAfterSlash(s: string, p: nat, tag: string, i: nat)
    requires p + 1 < |s| && s[p] == '<' && s[p + 1] == '/'
    requires p + 2 + i <= |s| && i == MatchLen(s, p + 2, tag) && i < |tag|
    ensures !CloserAt(s, p, tag)
    ensures Step(s, p, tag) == if p + 2 + i < |s| then p + 3 + i else p + 2 + i
  {
  }

  lemma NoClosingTagHere(s: string, p: nat, tag: string, mark: Option<nat>)
    requires p < |s| && !CloserAt(s, p, tag)
    ensures Closer(s, p, tag) == Closer(s, Step(s, p, tag), tag)
    ensures FinalMark(s, p, tag, mark) == FinalMark(s, Step(s, p, tag), tag, if s[p] == '<' then Some(p) else mark)
  {
  }

  /** The first row of the tag table whose token the parser accepts. */
  function FirstWanted(validSymbols: seq<bool>): (r: Option<nat>)
    requires |validSymbols| == 3
    ensures r.Some? ==> r.value < |Tags| && validSymbols[Index(Tags[r.value].token)]
    ensures r.Some? ==> forall j :: 0 <= j < r.value ==> !validSymbols[Index(Tags[j].token)]
    ensures r.None? <==> forall j :: 0 <= j < |Tags| ==> !validSymbols[Index(Tags[j].token)]
  {
    WantedFrom(validSymbols, 0)
  }

  function WantedFrom(validSymbols: seq<bool>, i: nat): (r: Option<nat>)
    requires |validSymbols| == 3 && i <= |Tags|
    ensures r.Some? ==> i <= r.value < |Tags| && validSymbols[Index(Tags[r.value].token)]
    ensures r.Some? ==> forall j :: i <= j < r.value ==> !validSymbols[Index(Tags[j].token)]
    ensures r.None? <==> forall j :: i <= j < |Tags| ==> !validSymbols[Index(Tags[j].token)]
    decreases |Tags| - i
  {
    if i == |Tags| then None
    else if validSymbols[Index(Tags[i].token)] then Some(i)
    else WantedFrom(validSymbols, i + 1)
  }

  /**
   * The scanner's entry point.  Only the first tag whose token the
   * parser accepts is tried; if its content cannot be scanned the
   * scanner gives up without trying the others.
   */
  method Scan(lexer: Lexer, validSymbols: seq<bool>) returns (recognised: bool)
    requires lexer.Valid() && |validSymbols| == 3
    modifies lexer
    ensures lexer.Valid()
    ensures FirstWanted(validSymbols).None? ==>
              !recognised && lexer.pos == old(lexer.pos) && lexer.markedEnd == old(lexer.markedEnd)
              && lexer.resultSymbol == old(lexer.resultSymbol)
    ensures FirstWanted(validSymbols).Some? ==>
              var tag := Tags[FirstWanted(validSymbols).value];
              var c := Closer(lexer.input, old(lexer.pos), tag.endTag);
              && (recognised <==> c.Some? && c.value > old(lexer.pos))
              && lexer.pos == EndOfScan(lexer.input, old(lexer.pos), tag.endTag)
              && lexer.markedEnd == FinalMark(lexer.input, old(lexer.pos), tag.endTag, old(lexer.markedEnd))
              && lexer.resultSymbol == if recognised then Some(tag.token) else old(lexer.resultSymbol)
  {
    TagTableWellFormed();
    for i := 0 to |Tags|
      invariant WantedFrom(validSymbols, i) == FirstWanted(validSymbols)
      invariant lexer.pos == old(lexer.pos) && lexer.markedEnd == old(lexer.markedEnd)
      invariant lexer.resultSymbol == old(lexer.resultSymbol)
    {
      var tag := Tags[i];
      if !validSymbols[Index(tag.token)] {
        continue;
      }
      var found := ScanUntilEndTag(lexer, tag.endTag);
      if found {
        lexer.resultSymbol := Some(tag.token);
        return true;
      }
      return false;
    }
    return false;
  }

  // ---------------------------------------------------------------------
  // Properties of the scan
  // ---------------------------------------------------------------------

  /** A closing tag is exactly the characters `</` followed by the tag. */
  lemma CloserSpelling(s: string, p: nat, tag: string)
    requires p <= |s|
    ensures CloserAt(s, p, tag) <==> p + 2 + |tag| <= |s| && s[p..p + 2 + |tag|] == "</" + tag
  {
    if p + 2 <= |s| {
      if p + 2 + |tag| <= |s| && s[p..p + 2 + |tag|] == "</" + tag {
        forall k | 0 <= k < |tag|
          ensures s[p + 2 + k] == tag[k]
        {
          assert s[p + 2 + k] == s[p..p + 2 + |tag|][2 + k];
        }
        WholeTagMatches(s, p + 2, tag, 0);
      }
      if CloserAt(s, p, tag) {
        assert s[p..p + 2 + |tag|] == "</" + tag by {
          forall k | 0 <= k < 2 + |tag|
            ensures s[p..p + 2 + |tag|][k] == ("</" + tag)[k]
          {
            if k >= 2 {
              assert s[p + 2 + (k - 2)] == tag[k - 2];
            }
          }
        }
      }
    }
  }

  lemma {:induction false} WholeTagMatches(s: string, q: nat, tag: string, i: nat)
    requires i <= |tag| && q + |tag| <= |s|
    requires forall k :: i <= k < |tag| ==> s[q + k] == tag[k]
    ensures MatchFrom(s, q, tag, i) == |tag|
    decreases |tag| - i
  {
    if i < |tag| {
      WholeTagMatches(s, q, tag, i + 1);
    }
  }

  /** When the scan finds a closing tag, the token ends at that tag's `<`. */
  lemma {:induction false} MarkAtCloser(s: string, p: nat, tag: string, mark: Option<nat>)
    requires p <= |s| && Closer(s, p, tag).Some?
    ensures FinalMark(s, p, tag, mark) == Closer(s, p, tag)
    decreases |s| - p
  {
    if !CloserAt(s, p, tag) {
      MarkAtCloser(s, Step(s, p, tag), tag, if s[p] == '<' then Some(p) else mark);
    }
  }

  /** Text without any `<` holds no closing tag: the scan runs to the end and marks nothing. */
  lemma {:induction false} NoAngleNoCloser(s: string, p: nat, tag: string, mark: Option<nat>)
    requires p <= |s|
    requires forall k :: p <= k < |s| ==> s[k] != '<'
    ensures Closer(s, p, tag) == None
    ensures FinalMark(s, p, tag, mark) == mark
    ensures EndOfScan(s, p, tag) == |s|
    decreases |s| - p
  {
    if p < |s| {
      NoAngleNoCloser(s, p + 1, tag, mark);
    }
  }

  /** A closing tag preceded only by text without `<` is the one the scan stops at. */
  lemma {:induction false} CloserAfterPlainText(s: string, p: nat, r: nat, tag: string)
    requires p <= r && CloserAt(s, r, tag)
    requires forall k :: p <= k < r ==> s[k] != '<'
    ensures Closer(s, p, tag) == Some(r)
    decreases r - p
  {
    if p < r {
      CloserAfterPlainText(s, p + 1, r, tag);
    }
  }

  /**
   * A `<` not followed by `/` takes the next character with it: the scan
   * resumes two characters on, so a closing tag right after a lone `<`
   * is never seen.
   */
  lemma AngleSwallowsNextCharacter(s: string, p: nat, tag: string, mark: Option<nat>)
    requires p + 1 < |s| && s[p] == '<' && s[p + 1] != '/'
    ensures Closer(s, p, tag) == Closer(s, p + 2, tag)
    ensures FinalMark(s, p, tag, mark) == FinalMark(s, p + 2, tag, Some(p))
  {
  }

  /** After `</` and a partial tag, the character that broke the match is skipped too. */
  lemma MismatchSwallowsBreakingCharacter(s: string, p: nat, tag: string)
    requires p + 1 < |s| && s[p] == '<' && s[p + 1] == '/'
    requires MatchLen(s, p + 2, tag) < |tag| && p + 2 + MatchLen(s, p + 2, tag) < |s|
    ensures Closer(s, p, tag) == Closer(s, p + 3 + MatchLen(s, p + 2, tag), tag)
  {
  }

  /** `<</` + tag, as in `<</summary>`: the closing tag after a lone `<` is missed and no token results. */
  lemma LoneAngleHidesCloser(tag: string)
    requires forall k :: 0 <= k < |tag| ==> tag[k] != '<'
    ensures Closer("<</" + tag, 0, tag) == None
  {
    var s := "<</" + tag;
    assert s[0] == '<' && s[1] == '<';
    AngleSwallowsNextCharacter(s, 0, tag, None);
    forall k | 2 <= k < |s|
      ensures s[k] != '<'
    {
      if k > 2 {
        assert s[k] == tag[k - 3];
      }
    }
    NoAngleNoCloser(s, 2, tag, None);
  }

  /** `x</` + tag, as in `x</summary>`: after an ordinary character the same closing tag ends a one-character content. */
  lemma PlainCharacterBeforeCloser(c: char, tag: string)
    requires c != '<'
    ensures Closer([c] + ("</" + tag), 0, tag) == Some(1)
  {
    var t := [c] + ("</" + tag);
    assert t[1..2 + |tag| + 1] == "</" + tag;
    CloserSpelling(t, 1, tag);
    CloserAfterPlainText(t, 0, 1, tag);
  }

  /** A closing tag at the very start gives an empty content, which the scan rejects. */
  lemma EmptyContentRejected(s: string, p: nat, tag: string)
    requires p <= |s| && CloserAt(s, p, tag)
    ensures Closer(s, p, tag) == Some(p)
    ensures EndOfScan(s, p, tag) == p + 2 + |tag|
  {
  }

  /** With the valid symbols `[false, true, true]` only the `param>` row is tried. */
  lemma FirstWantedSkipsUnwantedTags()
    ensures FirstWanted([false, true, true]) == Some(1)
    ensures FirstWanted([true, true, true]) == Some(0)
    ensures FirstWanted([false, false, false]) == None
  {
    TagTableWellFormed();
  }

  // ---------------------------------------------------------------------
  // The stateless scanner's lifecycle
  // ---------------------------------------------------------------------

  /** The scanner's payload: it allocates none, so it is always NULL. */
  datatype Payload = Null

  function Create(): (payload: Payload)
    ensures payload == Null
  {
    Null
  }

  /** Serialising writes nothing into the buffer and reports a length of zero. */
  method Serialize(payload: Payload, buffer: array<char>) returns (length: nat)
    ensures length == 0
  {
    length := 0;
  }

  /** Deserialising reads nothing: the payload is the same whatever the buffer holds. */
  function Deserialize(payload: Payload, buffer: seq<char>, length: nat): (restored: Payload)
    ensures restored == payload
  {
    payload
  }

  /** Restoring whatever a buffer holds yields the freshly created scanner again. */
  lemma RestoreGivesFreshScanner(buffer: seq<char>, length: nat)
    ensures Deserialize(Create(), buffer, length) == Create()
  {
  }
}
