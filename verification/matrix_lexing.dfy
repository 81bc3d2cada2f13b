/** What the tokenizer of the matrix DSL reads, defined by cutting a text into pieces. Every text
    has a cut, and the tokenizer reads exactly the pieces of the cut, or complains about the first
    character after them. */
module MatrixLexing {
  import opened Names
  import opened MatrixDsl

  /** A blank, an operator or parenthesis, an identifier, or a set name with its + in front. */
  datatype Piece = Blank(c: char) | Mark(c: char) | Word(name: string) | SetName(name: string)

  function Text(p: Piece): string {
    match p
    case Blank(c) => [c]
    case Mark(c) => [c]
    case Word(name) => name
    case SetName(name) => "+" + name
  }

  function TokenOf(p: Piece): seq<Token> {
    match p
    case Blank(_) => []
    case Mark(c) => if c == '&' then [TAnd] else if c == '|' then [TOr] else if c == '(' then [TLParen] else [TRParen]
    case Word(name) => [TIdent(name)]
    case SetName(name) => [TRef(name)]
  }

  predicate IdentChar(u: Classes, c: char) {
    u.isLetter(c) || u.isDigit(c) || c == '_' || c == '-' || c == '.'
  }

  const MARKS := {'&', '|', '(', ')'}

  ghost predicate Proper(u: Classes, p: Piece) {
    match p
    case Blank(c) => u.isSpace(c)
    case Mark(c) => c in MARKS && !u.isSpace(c)
    case Word(name) =>
      && name != "" && !u.isSpace(name[0]) && name[0] !in MARKS && name[0] != '+'
      && forall i | 0 <= i < |name| :: IdentChar(u, name[i])
    case SetName(name) => name != "" && !u.isSpace('+') && forall i | 0 <= i < |name| :: IdentChar(u, name[i])
  }

  function AllText(ps: seq<Piece>): string {
    if ps == [] then "" else Text(ps[0]) + AllText(ps[1..])
  }

  function AllTokens(ps: seq<Piece>): seq<Token> {
    if ps == [] then [] else TokenOf(ps[0]) + AllTokens(ps[1..])
  }

  predicate Continues(u: Classes, s: string) {
    s != "" && IdentChar(u, s[0])
  }

  /** The pieces come before the rest, and no name could have been read longer. */
  ghost predicate Cut(u: Classes, ps: seq<Piece>, rest: string) {
    ps != [] ==>
      && Proper(u, ps[0])
      && (ps[0].Word? || ps[0].SetName? ==> !Continues(u, AllText(ps[1..]) + rest))
      && Cut(u, ps[1..], rest)
  }

  /** Nothing can be read from here. */
  predicate Stuck(u: Classes, s: string) {
    && s != "" && !u.isSpace(s[0]) && s[0] !in MARKS
    && if s[0] == '+' then !Continues(u, s[1..]) else !IdentChar(u, s[0])
  }

  lemma {:induction false} SpanOf(u: Classes, name: string, rest: string)
    requires (forall i | 0 <= i < |name| :: IdentChar(u, name[i])) && !Continues(u, rest)
    ensures IdentSpan(u, name + rest) == |name|
  {
    if name != "" {
      assert (name + rest)[1..] == name[1..] + rest;
      SpanOf(u, name[1..], rest);
    } else {
      assert name + rest == rest;
    }
  }

  lemma ReadsPiece(u: Classes, p: Piece, rest: string, at: nat)
    requires Proper(u, p) && (p.Word? || p.SetName? ==> !Continues(u, rest))
    ensures Read(u, Text(p) + rest, at) == if p.Blank? then Skip else Emit(TokenOf(p)[0], |Text(p)|)
  {
    match p
    case Blank(_) =>
    case Mark(_) =>
    case Word(name) => ReadsWord(u, name, rest, at);
    case SetName(name) => ReadsSetName(u, name, rest, at);
  }

  lemma ReadsWord(u: Classes, name: string, rest: string, at: nat)
    requires Proper(u, Word(name)) && !Continues(u, rest)
    ensures Read(u, name + rest, at) == Emit(TIdent(name), |name|)
  {
    SpanOf(u, name, rest);
    assert (name + rest)[..|name|] == name && (name + rest)[0] == name[0];
  }

  lemma ReadsSetName(u: Classes, name: string, rest: string, at: nat)
    requires Proper(u, SetName(name)) && !Continues(u, rest)
    ensures Read(u, "+" + name + rest, at) == Emit(TRef(name), |name| + 1)
  {
    var s := "+" + name + rest;
    assert s[1..] == name + rest && s[0] == '+';
    SpanOf(u, name, rest);
    assert (name + rest)[..|name|] == name;
  }

  lemma LexReadsPiece(u: Classes, p: Piece, rest: string, at: nat)
    requires Proper(u, p) && (p.Word? || p.SetName? ==> !Continues(u, rest))
    ensures Lex(u, Text(p) + rest, at) == After(TokenOf(p), Lex(u, rest, at + |Text(p)|))
  {
    ReadsPiece(u, p, rest, at);
    assert (Text(p) + rest)[|Text(p)|..] == rest;
    var later := Lex(u, rest, at + |Text(p)|);
    if p.Blank? {
      AfterNothing(later);
    } else {
      assert TokenOf(p) == [TokenOf(p)[0]];
    }
  }

  type Reader = (string, nat) -> Result<seq<Token>, DslError>

  /** It reads the piece and goes on behind it. */
  ghost predicate ReadsOne(lex: Reader, p: Piece, more: string, at: nat) {
    lex(Text(p) + more, at) == After(TokenOf(p), lex(more, at + |Text(p)|))
  }

  ghost predicate Readable(u: Classes, p: Piece, more: string) {
    Proper(u, p) && (p.Word? || p.SetName? ==> !Continues(u, more))
  }

  ghost predicate ReadsPieces(u: Classes, lex: Reader) {
    forall p, more, at: nat | Readable(u, p, more) :: ReadsOne(lex, p, more, at)
  }

  lemma {:induction false} ReadsAllPieces(u: Classes, lex: Reader, ps: seq<Piece>, rest: string, at: nat)
    requires ReadsPieces(u, lex) && Cut(u, ps, rest)
    ensures lex(AllText(ps) + rest, at) == After(AllTokens(ps), lex(rest, at + |AllText(ps)|))
    decreases |ps|
  {
    if ps == [] {
      assert AllText(ps) + rest == rest;
      AfterNothing(lex(rest, at));
    } else {
      var p, more := ps[0], AllText(ps[1..]) + rest;
      assert AllText(ps) + rest == Text(p) + more;
      assert Readable(u, p, more) && ReadsOne(lex, p, more, at);
      ReadsAllPieces(u, lex, ps[1..], rest, at + |Text(p)|);
      AfterTwice(TokenOf(p), AllTokens(ps[1..]), lex(rest, at + |AllText(ps)|));
    }
  }

  lemma AfterTwice(ts: seq<Token>, more: seq<Token>, r: Result<seq<Token>, DslError>)
    ensures After(ts, After(more, r)) == After(ts + more, r)
  {
    if r.Ok? {
      assert ts + (more + r.value) == ts + more + r.value;
    }
  }

  lemma LexStops(u: Classes, s: string, at: nat)
    requires Stuck(u, s)
    ensures Lex(u, s, at) == Err(if s[0] == '+' then MissingSetName(at + 1) else UnexpectedChar(s[0], at))
  {
    assert "" + s[1..] == s[1..] && "" + s == s;
    if s[0] == '+' {
      SpanOf(u, "", s[1..]);
    } else {
      SpanOf(u, "", s);
    }
  }

  function LexFor(u: Classes): Reader {
    (s: string, at: nat) => Lex(u, s, at)
  }

  /** It reads pieces, ends at the end, and complains where it is stuck. */
  ghost predicate IsTokenizer(u: Classes, lex: Reader) {
    && ReadsPieces(u, lex)
    && (forall at: nat :: lex("", at) == Ok([TEof]))
    && (forall s, at: nat | Stuck(u, s) ::
          lex(s, at) == Err(if s[0] == '+' then MissingSetName(at + 1) else UnexpectedChar(s[0], at)))
  }

  lemma LexReadsOne(u: Classes, p: Piece, more: string, at: nat)
    requires Readable(u, p, more)
    ensures ReadsOne(LexFor(u), p, more, at)
  {
    LexReadsPiece(u, p, more, at);
    assert LexFor(u)(more, at + |Text(p)|) == Lex(u, more, at + |Text(p)|);
  }

  lemma LexReadsPieces(u: Classes)
    ensures ReadsPieces(u, LexFor(u))
  {
    forall p, more, at: nat | Readable(u, p, more)
      ensures ReadsOne(LexFor(u), p, more, at)
    {
      LexReadsOne(u, p, more, at);
    }
  }

  lemma LexIsTokenizer(u: Classes)
    ensures IsTokenizer(u, LexFor(u))
  {
    LexReadsPieces(u);
    forall s, at: nat | Stuck(u, s)
      ensures LexFor(u)(s, at) == Err(if s[0] == '+' then MissingSetName(at + 1) else UnexpectedChar(s[0], at))
    {
      LexStops(u, s, at);
    }
  }

  /** The tokens of the pieces, or an error at the character where the rest begins, or behind its +. */
  function Outcome(ps: seq<Piece>, rest: string): Result<seq<Token>, DslError> {
    if rest == "" then Ok(AllTokens(ps) + [TEof])
    else if rest[0] == '+' then Err(MissingSetName(|AllText(ps)| + 1))
    else Err(UnexpectedChar(rest[0], |AllText(ps)|))
  }

  lemma TokenizerFollowsCut(u: Classes, lex: Reader, ps: seq<Piece>, rest: string)
    requires IsTokenizer(u, lex) && Cut(u, ps, rest) && (rest == "" || Stuck(u, rest))
    ensures lex(AllText(ps) + rest, 0) == Outcome(ps, rest)
  {
    ReadsAllPieces(u, lex, ps, rest, 0);
  }

  /** From a cut the outcome follows. */
  lemma TokenizesExactly(u: Classes, ps: seq<Piece>, rest: string)
    requires Cut(u, ps, rest) && (rest == "" || Stuck(u, rest))
    ensures Lex(u, AllText(ps) + rest, 0) == Outcome(ps, rest)
  {
    LexIsTokenizer(u);
    TokenizerFollowsCut(u, LexFor(u), ps, rest);
  }

  /** Every text can be cut so. */
  lemma {:induction false} EveryTextIsCut(u: Classes, s: string) returns (ps: seq<Piece>, rest: string)
    ensures Cut(u, ps, rest) && s == AllText(ps) + rest && (rest == "" || Stuck(u, rest))
    decreases |s|
  {
    ps, rest := [], s;
    if s != "" && !Stuck(u, s) {
      var p := FirstPiece(u, s);
      var tail := s[|Text(p)|..];
      FirstThenTail(s, Text(p));
      var more: seq<Piece>;
      more, rest := EveryTextIsCut(u, tail);
      ps := [p] + more;
      LongerCut(u, p, more, rest);
    }
  }

  lemma FirstThenTail(s: string, first: string)
    requires |first| <= |s| && s[..|first|] == first
    ensures s == first + s[|first|..]
  {
  }

  lemma LongerCut(u: Classes, p: Piece, ps: seq<Piece>, rest: string)
    requires Cut(u, ps, rest) && Proper(u, p) && (p.Word? || p.SetName? ==> !Continues(u, AllText(ps) + rest))
    ensures Cut(u, [p] + ps, rest) && AllText([p] + ps) + rest == Text(p) + (AllText(ps) + rest)
  {
    assert ([p] + ps)[1..] == ps;
  }

  lemma FirstPiece(u: Classes, s: string) returns (p: Piece)
    requires s != "" && !Stuck(u, s)
    ensures Proper(u, p) && 0 < |Text(p)| <= |s| && s[..|Text(p)|] == Text(p)
    ensures p.Word? || p.SetName? ==> !Continues(u, s[|Text(p)|..])
  {
    if u.isSpace(s[0]) {
      p := Blank(s[0]);
    } else if s[0] in MARKS {
      p := Mark(s[0]);
    } else if s[0] == '+' {
      var n := IdentSpan(u, s[1..]);
      p := SetName(s[1..][..n]);
      assert s[..n + 1] == "+" + s[1..][..n] && s[n + 1..] == s[1..][n..];
    } else {
      p := Word(s[..IdentSpan(u, s)]);
    }
  }

  // ---- Whole texts ----

  ghost predicate AllBlank(u: Classes, s: string) {
    forall i | 0 <= i < |s| :: u.isSpace(s[i])
  }

  /** s is the text without the blanks at its ends. */
  ghost predicate Trimmed(u: Classes, input: string, s: string) {
    && (exists left, right :: AllBlank(u, left) && AllBlank(u, right) && input == left + s + right)
    && (s != "" ==> !u.isSpace(s[0]) && !u.isSpace(s[|s| - 1]))
  }

  lemma {:induction false} TrimLeftIs(u: Classes, s: string) returns (left: string)
    ensures AllBlank(u, left) && s == left + TrimLeft(u, s)
    ensures TrimLeft(u, s) != "" ==> !u.isSpace(TrimLeft(u, s)[0])
  {
    left := "";
    if s != "" && u.isSpace(s[0]) {
      left := TrimLeftIs(u, s[1..]);
      left := [s[0]] + left;
    }
  }

  lemma {:induction false} TrimRightIs(u: Classes, s: string) returns (right: string)
    ensures AllBlank(u, right) && s == TrimRight(u, s) + right
    ensures TrimRight(u, s) != "" ==> !u.isSpace(TrimRight(u, s)[|TrimRight(u, s)| - 1])
  {
    right := "";
    if s != "" && u.isSpace(s[|s| - 1]) {
      right := TrimRightIs(u, s[..|s| - 1]);
      right := right + [s[|s| - 1]];
    }
  }

  /** An expression is read from the text without its outer blanks, whose first character counts as
      position nought; a text of blanks only is an error of its own. */
  lemma TextIsTrimmed(u: Classes, input: string) returns (s: string)
    ensures Trimmed(u, input, s)
    ensures s == "" <==> AllBlank(u, input)
    ensures ParseText(u, input) ==
            if s == "" then Err(EmptyExpression)
            else match Lex(u, s, 0) case Err(e) => Err(e) case Ok(ts) => ParseTokens(ts)
  {
    s := TrimSpace(u, input);
    var left := TrimLeftIs(u, input);
    var right := TrimRightIs(u, TrimLeft(u, input));
    assert input == left + s + right;
    if s != "" {
      assert s[0] == TrimLeft(u, input)[0];
      assert input[|left|] == s[0];
    }
  }
}
