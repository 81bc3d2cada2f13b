/** The matrix DSL: tokenizer and recursive-descent parser (internal/matrix/dsl.go).

    The methods advance an index over the input, as the source does; each is proved equal to a
    function on the remaining input. The lemmas then compare those functions with an independent
    definition of the language: concrete syntax trees and the tokens they spell. */
module MatrixDsl {
  import opened Names

  datatype Token =
    | TIdent(name: string)
    | TRef(name: string)
    | TAnd
    | TOr
    | TLParen
    | TRParen
    | TEof

  /** An expression tree. The parser makes And and Or nodes with two or more children only. */
  datatype Expr =
    | Leaf(name: string)
    | Ref(name: string)
    | And(children: seq<Expr>)
    | Or(children: seq<Expr>)

  datatype DslError =
    | EmptyExpression
    | MissingSetName(at: nat)
    | UnexpectedChar(c: char, at: nat)
    | UnexpectedToken(token: Token)
    | MissingParen
    | TrailingToken(token: Token)

  /** The three Unicode classes the tokenizer asks the Go runtime about. */
  datatype Classes = Classes(isSpace: char -> bool, isLetter: char -> bool, isDigit: char -> bool) {
    predicate IsIdent(c: char) {
      isLetter(c) || isDigit(c) || c == '_' || c == '-' || c == '.'
    }

    /** What Unicode says about them: no identifier character is white space, a blank is, and
        the operator characters are in none of the classes. */
    ghost predicate Standard() {
      && isSpace(' ')
      && (forall c :: IsIdent(c) ==> !isSpace(c))
      && (forall c | c in {'&', '|', '(', ')', '+'} :: !IsIdent(c) && !isSpace(c))
    }
  }

  // ---- Tokenizer ----

  /** How many leading characters of s are identifier characters. */
  function IdentSpan(u: Classes, s: string): (n: nat)
    ensures n <= |s|
    ensures forall i :: 0 <= i < n ==> u.IsIdent(s[i])
    ensures n < |s| ==> !u.IsIdent(s[n])
  {
    if s == "" || !u.IsIdent(s[0]) then 0 else 1 + IdentSpan(u, s[1..])
  }

  /** What one turn of the tokenizer makes of its input: n characters skipped, a token of n
      characters, or an error. */
  datatype Reading = Skip | Emit(token: Token, n: nat) | Bad(error: DslError)

  function Read(u: Classes, s: string, at: nat): (r: Reading)
    requires s != ""
    ensures r.Emit? ==> 0 < r.n <= |s|
  {
    if u.isSpace(s[0]) then Skip
    else if s[0] == '&' then Emit(TAnd, 1)
    else if s[0] == '|' then Emit(TOr, 1)
    else if s[0] == '(' then Emit(TLParen, 1)
    else if s[0] == ')' then Emit(TRParen, 1)
    else if s[0] == '+' then
      var n := IdentSpan(u, s[1..]);
      if n == 0 then Bad(MissingSetName(at + 1)) else Emit(TRef(s[1..][..n]), n + 1)
    else
      var n := IdentSpan(u, s);
      if n == 0 then Bad(UnexpectedChar(s[0], at)) else Emit(TIdent(s[..n]), n)
  }

  /** The tokens of s, whose first character stands at position `at` of the whole input. */
  function Lex(u: Classes, s: string, at: nat): Result<seq<Token>, DslError>
    decreases |s|
  {
    if s == "" then Ok([TEof])
    else
      match Read(u, s, at)
      case Skip => Lex(u, s[1..], at + 1)
      case Emit(t, n) => Prepend(t, Lex(u, s[n..], at + n))
      case Bad(e) => Err(e)
  }

  function Prepend(t: Token, r: Result<seq<Token>, DslError>): Result<seq<Token>, DslError> {
    match r
    case Ok(ts) => Ok([t] + ts)
    case Err(e) => Err(e)
  }

  /** The index loop over the identifier characters that start at `from`. */
  method ScanIdent(u: Classes, runes: string, from: nat) returns (i: nat)
    requires from <= |runes|
    ensures i == from + IdentSpan(u, runes[from..])
  {
    i := from;
    while i < |runes| && u.IsIdent(runes[i])
      invariant from <= i <= |runes|
      invariant from + IdentSpan(u, runes[from..]) == i + IdentSpan(u, runes[i..])
    {
      assert runes[i..][1..] == runes[i + 1..];
      i := i + 1;
    }
  }

  /** One turn of the tokenizer's loop: skip a blank, or read the token at i. */
  method ReadOne(u: Classes, runes: string, i: nat) returns (r: Reading)
    requires i < |runes|
    ensures r == Read(u, runes[i..], i)
  {
    var ch := runes[i];
    ghost var s := runes[i..];
    assert s[1..] == runes[i + 1..];
    if u.isSpace(ch) {
      return Skip;
    }
    if ch == '&' {
      r := Emit(TAnd, 1);
    } else if ch == '|' {
      r := Emit(TOr, 1);
    } else if ch == '(' {
      r := Emit(TLParen, 1);
    } else if ch == ')' {
      r := Emit(TRParen, 1);
    } else if ch == '+' {
      var start := i + 1;
      var j := ScanIdent(u, runes, start);
      if j == start {
        return Bad(MissingSetName(start));
      }
      assert s[1..][..j - start] == runes[start..j];
      r := Emit(TRef(runes[start..j]), j - i);
    } else {
      if !u.IsIdent(ch) {
        return Bad(UnexpectedChar(ch, i));
      }
      var j := ScanIdent(u, runes, i);
      assert s[..j - i] == runes[i..j];
      r := Emit(TIdent(runes[i..j]), j - i);
    }
  }

  method Tokenize(u: Classes, runes: string) returns (r: Result<seq<Token>, DslError>)
    ensures r == Lex(u, runes, 0)
  {
    var tokens: seq<Token> := [];
    var i := 0;
    assert runes[0..] == runes;
    AfterNothing(Lex(u, runes, 0));
    while i < |runes|
      invariant 0 <= i <= |runes|
      invariant Lex(u, runes, 0) == After(tokens, Lex(u, runes[i..], i))
      decreases |runes| - i
    {
      var read := ReadOne(u, runes, i);
      match read {
        case Skip =>
          assert runes[i..][1..] == runes[i + 1..];
          i := i + 1;
        case Emit(t, n) =>
          assert runes[i..][n..] == runes[i + n..];
          AfterPrepend(tokens, t, Lex(u, runes[i + n..], i + n));
          tokens := tokens + [t];
          i := i + n;
        case Bad(e) =>
          return Err(e);
      }
    }
    return Ok(tokens + [TEof]);
  }

  ghost function After(done: seq<Token>, r: Result<seq<Token>, DslError>): Result<seq<Token>, DslError> {
    match r
    case Ok(ts) => Ok(done + ts)
    case Err(e) => Err(e)
  }

  lemma AfterNothing(r: Result<seq<Token>, DslError>)
    ensures After([], r) == r
  {
    if r.Ok? {
      assert [] + r.value == r.value;
    }
  }

  lemma AfterPrepend(done: seq<Token>, t: Token, r: Result<seq<Token>, DslError>)
    ensures After(done, Prepend(t, r)) == After(done + [t], r)
  {
    if r.Ok? {
      assert done + ([t] + r.value) == done + [t] + r.value;
    }
  }

  // ---- Parser ----

  datatype Parsed =
    | Parsed(tree: Expr, rest: seq<Token>)
    | Failed(error: DslError)

  function Head(ts: seq<Token>): Token {
    if ts == [] then TEof else ts[0]
  }

  function ParseOr(ts: seq<Token>): (p: Parsed)
    ensures p.Parsed? ==> |p.rest| < |ts|
    decreases |ts|, 2
  {
    match ParseAnd(ts)
    case Failed(e) => Failed(e)
    case Parsed(left, r) => if Head(r) == TOr then ParseOrTail([left], r) else Parsed(left, r)
  }

  function ParseOrTail(acc: seq<Expr>, ts: seq<Token>): (p: Parsed)
    ensures p.Parsed? ==> |p.rest| <= |ts|
    decreases |ts|, 3
  {
    if Head(ts) != TOr then Parsed(Or(acc), ts)
    else
      match ParseAnd(ts[1..])
      case Failed(e) => Failed(e)
      case Parsed(right, r) => ParseOrTail(acc + [right], r)
  }

  function ParseAnd(ts: seq<Token>): (p: Parsed)
    ensures p.Parsed? ==> |p.rest| < |ts|
    decreases |ts|, 1
  {
    match ParseAtom(ts)
    case Failed(e) => Failed(e)
    case Parsed(left, r) => if Head(r) == TAnd then ParseAndTail([left], r) else Parsed(left, r)
  }

  function ParseAndTail(acc: seq<Expr>, ts: seq<Token>): (p: Parsed)
    ensures p.Parsed? ==> |p.rest| <= |ts|
    decreases |ts|, 3
  {
    if Head(ts) != TAnd then Parsed(And(acc), ts)
    else
      match ParseAtom(ts[1..])
      case Failed(e) => Failed(e)
      case Parsed(right, r) => ParseAndTail(acc + [right], r)
  }

  function ParseAtom(ts: seq<Token>): (p: Parsed)
    ensures p.Parsed? ==> |p.rest| < |ts|
    decreases |ts|, 0
  {
    match Head(ts)
    case TIdent(name) => Parsed(Leaf(name), ts[1..])
    case TRef(name) => Parsed(Ref(name), ts[1..])
    case TLParen =>
      (match ParseOr(ts[1..])
       case Failed(e) => Failed(e)
       case Parsed(tree, r) => if Head(r) == TRParen then Parsed(tree, r[1..]) else Failed(MissingParen))
    case t => Failed(UnexpectedToken(t))
  }

  /** The whole input must be one expression. */
  function ParseTokens(ts: seq<Token>): Result<Expr, DslError> {
    match ParseOr(ts)
    case Failed(e) => Err(e)
    case Parsed(tree, rest) => if Head(rest) == TEof then Ok(tree) else Err(TrailingToken(Head(rest)))
  }

  /** The parser object: the tokens and the position reached so far. */
  class Parser {
    const tokens: seq<Token>
    var pos: nat

    constructor (tokens: seq<Token>)
      ensures this.tokens == tokens && pos == 0
    {
      this.tokens := tokens;
      pos := 0;
    }

    ghost predicate Valid()
      reads this
    {
      pos <= |tokens|
    }

    ghost function Remaining(): seq<Token>
      requires Valid()
      reads this
    {
      tokens[pos..]
    }

    function Peek(): (t: Token)
      requires Valid()
      reads this
      ensures t == Head(Remaining())
    {
      if pos < |tokens| then tokens[pos] else TEof
    }

    method Next() returns (t: Token)
      requires Valid()
      modifies this
      ensures Valid()
      ensures t == Head(old(Remaining()))
      ensures Remaining() == if t == TEof then old(Remaining()) else old(Remaining())[1..]
    {
      t := Peek();
      if t != TEof {
        pos := pos + 1;
      }
    }

    /** The parser stands where the function p says it should, with p's outcome. */
    ghost predicate Reached(p: Parsed, r: Result<Expr, DslError>)
      requires Valid()
      reads this
    {
      match p
      case Parsed(tree, rest) => r == Ok(tree) && Remaining() == rest
      case Failed(e) => r == Err(e)
    }

    method ParseOrExpr() returns (r: Result<Expr, DslError>)
      requires Valid()
      modifies this
      ensures Valid()
      ensures Reached(ParseOr(old(Remaining())), r)
      decreases |tokens| - pos, 2
    {
      ghost var start := Remaining();
      var left := ParseAndExpr();
      if left.Err? {
        return left;
      }
      if Peek() != TOr {
        return left;
      }
      var children := [left.value];
      while Peek() == TOr
        invariant Valid() && |Remaining()| < |start|
        invariant ParseOr(start) == ParseOrTail(children, Remaining())
        decreases |tokens| - pos
      {
        var _ := Next();
        var right := ParseAndExpr();
        if right.Err? {
          return right;
        }
        children := children + [right.value];
      }
      return Ok(Or(children));
    }

    method ParseAndExpr() returns (r: Result<Expr, DslError>)
      requires Valid()
      modifies this
      ensures Valid()
      ensures Reached(ParseAnd(old(Remaining())), r)
      decreases |tokens| - pos, 1
    {
      ghost var start := Remaining();
      var left := ParseAtomExpr();
      if left.Err? {
        return left;
      }
      if Peek() != TAnd {
        return left;
      }
      var children := [left.value];
      while Peek() == TAnd
        invariant Valid() && |Remaining()| < |start|
        invariant ParseAnd(start) == ParseAndTail(children, Remaining())
        decreases |tokens| - pos
      {
        var _ := Next();
        var right := ParseAtomExpr();
        if right.Err? {
          return right;
        }
        children := children + [right.value];
      }
      return Ok(And(children));
    }

    method ParseAtomExpr() returns (r: Result<Expr, DslError>)
      requires Valid()
      modifies this
      ensures Valid()
      ensures Reached(ParseAtom(old(Remaining())), r)
      decreases |tokens| - pos, 0
    {
      var t := Next();
      match t
      case TIdent(name) =>
        return Ok(Leaf(name));
      case TRef(name) =>
        return Ok(Ref(name));
      case TLParen =>
        r := ParseOrExpr();
        if r.Err? {
          return;
        }
        var close := Next();
        if close != TRParen {
          return Err(MissingParen);
        }
      case _ =>
        return Err(UnexpectedToken(t));
    }
  }

  // ---- The grammar ----
  //
  //   or   := and ('|' and)*
  //   and  := atom ('&' atom)*
  //   atom := ident | '+' name | '(' or ')'

  datatype OrSyntax = OrSyntax(first: AndSyntax, rest: seq<AndSyntax>)

  datatype AndSyntax = AndSyntax(first: AtomSyntax, rest: seq<AtomSyntax>)

  datatype AtomSyntax =
    | IdentSyntax(name: string)
    | RefSyntax(name: string)
    | ParenSyntax(inner: OrSyntax)

  /** The tokens a syntax tree spells. */
  function SpellOr(o: OrSyntax): seq<Token>
    decreases o, 0
  {
    SpellAnd(o.first) + SpellOrRest(o.rest)
  }

  function SpellOrRest(xs: seq<AndSyntax>): seq<Token>
    decreases xs, 0
  {
    if xs == [] then [] else [TOr] + SpellAnd(xs[0]) + SpellOrRest(xs[1..])
  }

  function SpellAnd(a: AndSyntax): seq<Token>
    decreases a, 0
  {
    SpellAtom(a.first) + SpellAndRest(a.rest)
  }

  function SpellAndRest(xs: seq<AtomSyntax>): seq<Token>
    decreases xs, 0
  {
    if xs == [] then [] else [TAnd] + SpellAtom(xs[0]) + SpellAndRest(xs[1..])
  }

  function SpellAtom(a: AtomSyntax): seq<Token>
    decreases a, 0
  {
    match a
    case IdentSyntax(name) => [TIdent(name)]
    case RefSyntax(name) => [TRef(name)]
    case ParenSyntax(inner) => [TLParen] + SpellOr(inner) + [TRParen]
  }

  /** The expression a syntax tree denotes: parentheses and one-element chains vanish. */
  function TreeOr(o: OrSyntax): Expr
    decreases o, 0
  {
    if o.rest == [] then TreeAnd(o.first) else Or([TreeAnd(o.first)] + TreeAnds(o.rest))
  }

  function TreeAnds(xs: seq<AndSyntax>): seq<Expr>
    decreases xs, 0
  {
    if xs == [] then [] else [TreeAnd(xs[0])] + TreeAnds(xs[1..])
  }

  function TreeAnd(a: AndSyntax): Expr
    decreases a, 0
  {
    if a.rest == [] then TreeAtom(a.first) else And([TreeAtom(a.first)] + TreeAtoms(a.rest))
  }

  function TreeAtoms(xs: seq<AtomSyntax>): seq<Expr>
    decreases xs, 0
  {
    if xs == [] then [] else [TreeAtom(xs[0])] + TreeAtoms(xs[1..])
  }

  function TreeAtom(a: AtomSyntax): Expr
    decreases a, 0
  {
    match a
    case IdentSyntax(name) => Leaf(name)
    case RefSyntax(name) => Ref(name)
    case ParenSyntax(inner) => TreeOr(inner)
  }

  // ---- Completeness: every spelling parses to its tree ----

  lemma {:induction false} OrComplete(o: OrSyntax, rest: seq<Token>)
    requires Head(rest) !in {TOr, TAnd}
    ensures ParseOr(SpellOr(o) + rest) == Parsed(TreeOr(o), rest)
    decreases o, 0
  {
    var more := SpellOrRest(o.rest) + rest;
    assert SpellOr(o) + rest == SpellAnd(o.first) + more;
    if o.rest == [] {
      assert more == rest;
    } else {
      assert Head(more) == TOr;
    }
    AndComplete(o.first, more);
    if o.rest != [] {
      OrRestComplete([TreeAnd(o.first)], o.rest, rest);
    }
  }

  lemma {:induction false} OrRestComplete(acc: seq<Expr>, xs: seq<AndSyntax>, rest: seq<Token>)
    requires Head(rest) !in {TOr, TAnd}
    ensures ParseOrTail(acc, SpellOrRest(xs) + rest) == Parsed(Or(acc + TreeAnds(xs)), rest)
    decreases xs, 0
  {
    var ts := SpellOrRest(xs) + rest;
    if xs == [] {
      assert ts == rest && acc + TreeAnds(xs) == acc;
    } else {
      var more := SpellOrRest(xs[1..]) + rest;
      assert ts[1..] == SpellAnd(xs[0]) + more;
      if xs[1..] == [] {
        assert more == rest;
      } else {
        assert Head(more) == TOr;
      }
      AndComplete(xs[0], more);
      OrRestComplete(acc + [TreeAnd(xs[0])], xs[1..], rest);
      assert acc + [TreeAnd(xs[0])] + TreeAnds(xs[1..]) == acc + TreeAnds(xs);
    }
  }

  lemma {:induction false} AndComplete(a: AndSyntax, rest: seq<Token>)
    requires Head(rest) != TAnd
    ensures ParseAnd(SpellAnd(a) + rest) == Parsed(TreeAnd(a), rest)
    decreases a, 0
  {
    var more := SpellAndRest(a.rest) + rest;
    assert SpellAnd(a) + rest == SpellAtom(a.first) + more;
    AtomComplete(a.first, more);
    if a.rest == [] {
      assert more == rest;
    } else {
      assert Head(more) == TAnd;
      AndRestComplete([TreeAtom(a.first)], a.rest, rest);
    }
  }

  lemma {:induction false} AndRestComplete(acc: seq<Expr>, xs: seq<AtomSyntax>, rest: seq<Token>)
    requires Head(rest) != TAnd
    ensures ParseAndTail(acc, SpellAndRest(xs) + rest) == Parsed(And(acc + TreeAtoms(xs)), rest)
    decreases xs, 0
  {
    var ts := SpellAndRest(xs) + rest;
    if xs == [] {
      assert ts == rest && acc + TreeAtoms(xs) == acc;
    } else {
      var more := SpellAndRest(xs[1..]) + rest;
      assert ts[1..] == SpellAtom(xs[0]) + more;
      AtomComplete(xs[0], more);
      AndRestComplete(acc + [TreeAtom(xs[0])], xs[1..], rest);
      assert acc + [TreeAtom(xs[0])] + TreeAtoms(xs[1..]) == acc + TreeAtoms(xs);
    }
  }

  lemma {:induction false} AtomComplete(a: AtomSyntax, rest: seq<Token>)
    ensures ParseAtom(SpellAtom(a) + rest) == Parsed(TreeAtom(a), rest)
    decreases a, 0
  {
    var ts := SpellAtom(a) + rest;
    match a
    case IdentSyntax(_) =>
      assert ts[1..] == rest;
    case RefSyntax(_) =>
      assert ts[1..] == rest;
    case ParenSyntax(inner) =>
      var close := [TRParen] + rest;
      assert ts[1..] == SpellOr(inner) + close;
      OrComplete(inner, close);
      assert close[1..] == rest;
  }

  // ---- Soundness: whatever parses is the spelling of a syntax tree ----

  lemma {:induction false} OrSound(ts: seq<Token>) returns (o: OrSyntax)
    requires ParseOr(ts).Parsed?
    ensures ts == SpellOr(o) + ParseOr(ts).rest && ParseOr(ts).tree == TreeOr(o)
    decreases |ts|, 2
  {
    var a := AndSound(ts);
    var r := ParseAnd(ts).rest;
    if Head(r) == TOr {
      var xs := OrRestSound([TreeAnd(a)], r);
      o := OrSyntax(a, xs);
      assert ts == SpellAnd(a) + (SpellOrRest(xs) + ParseOr(ts).rest);
    } else {
      o := OrSyntax(a, []);
    }
  }

  lemma Glue<T>(ts: seq<T>, h: T, a: seq<T>, r: seq<T>, b: seq<T>, c: seq<T>)
    requires ts != [] && ts[0] == h && ts[1..] == a + r && r == b + c
    ensures ts == [h] + a + b + c
  {
    assert ts == [h] + ts[1..];
  }

  lemma OrRestExtend(acc: seq<Expr>, x: AndSyntax, ys: seq<AndSyntax>)
    ensures SpellOrRest([x] + ys) == [TOr] + SpellAnd(x) + SpellOrRest(ys)
    ensures acc + TreeAnds([x] + ys) == acc + [TreeAnd(x)] + TreeAnds(ys)
  {
    assert ([x] + ys)[1..] == ys;
  }

  lemma {:induction false} OrRestSound(acc: seq<Expr>, ts: seq<Token>) returns (xs: seq<AndSyntax>)
    requires ParseOrTail(acc, ts).Parsed?
    ensures ts == SpellOrRest(xs) + ParseOrTail(acc, ts).rest
    ensures ParseOrTail(acc, ts).tree == Or(acc + TreeAnds(xs))
    ensures Head(ts) == TOr ==> xs != []
    decreases |ts|, 3
  {
    if Head(ts) != TOr {
      xs := [];
      assert acc + TreeAnds(xs) == acc;
    } else {
      var a := AndSound(ts[1..]);
      var r := ParseAnd(ts[1..]).rest;
      var ys := OrRestSound(acc + [TreeAnd(a)], r);
      xs := [a] + ys;
      OrRestExtend(acc, a, ys);
      Glue(ts, TOr, SpellAnd(a), r, SpellOrRest(ys), ParseOrTail(acc, ts).rest);
    }
  }

  lemma {:induction false} AndSound(ts: seq<Token>) returns (a: AndSyntax)
    requires ParseAnd(ts).Parsed?
    ensures ts == SpellAnd(a) + ParseAnd(ts).rest && ParseAnd(ts).tree == TreeAnd(a)
    decreases |ts|, 1
  {
    var t := AtomSound(ts);
    var r := ParseAtom(ts).rest;
    if Head(r) == TAnd {
      var xs := AndRestSound([TreeAtom(t)], r);
      a := AndSyntax(t, xs);
      assert ts == SpellAtom(t) + (SpellAndRest(xs) + ParseAnd(ts).rest);
    } else {
      a := AndSyntax(t, []);
    }
  }

  lemma AndRestExtend(acc: seq<Expr>, x: AtomSyntax, ys: seq<AtomSyntax>)
    ensures SpellAndRest([x] + ys) == [TAnd] + SpellAtom(x) + SpellAndRest(ys)
    ensures acc + TreeAtoms([x] + ys) == acc + [TreeAtom(x)] + TreeAtoms(ys)
  {
    assert ([x] + ys)[1..] == ys;
  }

  lemma {:induction false} AndRestSound(acc: seq<Expr>, ts: seq<Token>) returns (xs: seq<AtomSyntax>)
    requires ParseAndTail(acc, ts).Parsed?
    ensures ts == SpellAndRest(xs) + ParseAndTail(acc, ts).rest
    ensures ParseAndTail(acc, ts).tree == And(acc + TreeAtoms(xs))
    ensures Head(ts) == TAnd ==> xs != []
    decreases |ts|, 3
  {
    if Head(ts) != TAnd {
      xs := [];
      assert acc + TreeAtoms(xs) == acc;
    } else {
      var t := AtomSound(ts[1..]);
      var r := ParseAtom(ts[1..]).rest;
      var ys := AndRestSound(acc + [TreeAtom(t)], r);
      xs := [t] + ys;
      AndRestExtend(acc, t, ys);
      Glue(ts, TAnd, SpellAtom(t), r, SpellAndRest(ys), ParseAndTail(acc, ts).rest);
    }
  }

  lemma {:induction false} AtomSound(ts: seq<Token>) returns (a: AtomSyntax)
    requires ParseAtom(ts).Parsed?
    ensures ts == SpellAtom(a) + ParseAtom(ts).rest && ParseAtom(ts).tree == TreeAtom(a)
    decreases |ts|, 0
  {
    assert ts == [ts[0]] + ts[1..];
    match Head(ts)
    case TIdent(name) =>
      a := IdentSyntax(name);
    case TRef(name) =>
      a := RefSyntax(name);
    case TLParen =>
      var inner := OrSound(ts[1..]);
      a := ParenSyntax(inner);
      var r := ParseOr(ts[1..]).rest;
      assert r == [TRParen] + r[1..];
  }

  // ---- The two together ----

  lemma {:induction false} SpellingHasNoEof(o: OrSyntax)
    ensures TEof !in SpellOr(o)
    decreases o, 0
  {
    AndHasNoEof(o.first);
    OrRestHasNoEof(o.rest);
  }

  lemma {:induction false} OrRestHasNoEof(xs: seq<AndSyntax>)
    ensures TEof !in SpellOrRest(xs)
    decreases xs, 0
  {
    if xs != [] {
      AndHasNoEof(xs[0]);
      OrRestHasNoEof(xs[1..]);
    }
  }

  lemma {:induction false} AndHasNoEof(a: AndSyntax)
    ensures TEof !in SpellAnd(a)
    decreases a, 0
  {
    AtomHasNoEof(a.first);
    AndRestHasNoEof(a.rest);
  }

  lemma {:induction false} AndRestHasNoEof(xs: seq<AtomSyntax>)
    ensures TEof !in SpellAndRest(xs)
    decreases xs, 0
  {
    if xs != [] {
      AtomHasNoEof(xs[0]);
      AndRestHasNoEof(xs[1..]);
    }
  }

  lemma {:induction false} AtomHasNoEof(a: AtomSyntax)
    ensures TEof !in SpellAtom(a)
    decreases a, 0
  {
    if a.ParenSyntax? {
      SpellingHasNoEof(a.inner);
    }
  }

  /** If s + rest ends at the only end mark, which rest begins with (or would), then s is the body. */
  lemma Delimited(s: seq<Token>, rest: seq<Token>, body: seq<Token>, mark: Token)
    requires s + rest == body + [mark]
    requires mark !in s && mark !in body && (rest == [] || rest[0] == mark)
    ensures s == body
  {
    assert (s + rest)[|body|] == mark;
    assert |s| <= |body|;
    assert rest[0] == (body + [mark])[|s|];
    assert s == (s + rest)[..|s|];
    assert body == (body + [mark])[..|body|];
  }

  /** The parser accepts a token list with a tree exactly when some syntax tree spells the list
      and denotes the tree: sound, complete, and all input is consumed. */
  lemma ParserAcceptsExactlyTheGrammar(body: seq<Token>, e: Expr)
    requires TEof !in body
    ensures ParseTokens(body + [TEof]) == Ok(e) <==>
            exists o :: SpellOr(o) == body && TreeOr(o) == e
  {
    var ts := body + [TEof];
    if ParseTokens(ts) == Ok(e) {
      var o := OrSound(ts);
      var rest := ParseOr(ts).rest;
      SpellingHasNoEof(o);
      Delimited(SpellOr(o), rest, body, TEof);
    }
    if o :| SpellOr(o) == body && TreeOr(o) == e {
      OrComplete(o, [TEof]);
    }
  }

  /** The grammar is unambiguous: a token list spells at most one expression. */
  lemma GrammarUnambiguous(o1: OrSyntax, o2: OrSyntax)
    requires SpellOr(o1) == SpellOr(o2)
    ensures TreeOr(o1) == TreeOr(o2)
  {
    OrComplete(o1, [TEof]);
    OrComplete(o2, [TEof]);
  }

  // ---- Text in, tree out ----

  function TrimLeft(u: Classes, s: string): string {
    if s != "" && u.isSpace(s[0]) then TrimLeft(u, s[1..]) else s
  }

  function TrimRight(u: Classes, s: string): string {
    if s != "" && u.isSpace(s[|s| - 1]) then TrimRight(u, s[..|s| - 1]) else s
  }

  /** strings.TrimSpace. */
  function TrimSpace(u: Classes, s: string): string {
    TrimRight(u, TrimLeft(u, s))
  }

  function ParseText(u: Classes, input: string): Result<Expr, DslError> {
    var s := TrimSpace(u, input);
    if s == "" then Err(EmptyExpression)
    else
      match Lex(u, s, 0)
      case Err(e) => Err(e)
      case Ok(ts) => ParseTokens(ts)
  }

  method ParseDsl(u: Classes, input: string) returns (r: Result<Expr, DslError>)
    ensures r == ParseText(u, input)
  {
    var trimmed := TrimSpace(u, input);
    if trimmed == "" {
      return Err(EmptyExpression);
    }
    var lexed := Tokenize(u, trimmed);
    if lexed.Err? {
      return Err(lexed.error);
    }
    var p := new Parser(lexed.value);
    assert lexed.value[0..] == lexed.value;
    r := p.ParseOrExpr();
    if r.Ok? && p.Peek() != TEof {
      return Err(TrailingToken(p.Peek()));
    }
  }

  // ---- Writing a tree and reading it back ----

  /** What the parser can produce from names the tokenizer can read. */
  ghost predicate Readable(u: Classes, e: Expr)
    decreases e
  {
    match e
    case Leaf(name) => IsName(u, name)
    case Ref(name) => IsName(u, name)
    case And(cs) => |cs| >= 2 && forall c | c in cs :: Readable(u, c)
    case Or(cs) => |cs| >= 2 && forall c | c in cs :: Readable(u, c)
  }

  ghost predicate IsName(u: Classes, name: string) {
    name != "" && forall c | c in name :: u.IsIdent(c)
  }

  /** The syntax tree with parentheses around every nested operator. */
  function Syntax(e: Expr): OrSyntax
    decreases e, 0
  {
    match e
    case Or(cs) =>
      if cs == [] then OrSyntax(AndSyntax(IdentSyntax(""), []), [])
      else
        var xs := Singles(Atoms(cs));
        OrSyntax(xs[0], xs[1..])
    case And(cs) =>
      if cs == [] then OrSyntax(AndSyntax(IdentSyntax(""), []), [])
      else
        var xs := Atoms(cs);
        OrSyntax(AndSyntax(xs[0], xs[1..]), [])
    case Leaf(name) => OrSyntax(AndSyntax(IdentSyntax(name), []), [])
    case Ref(name) => OrSyntax(AndSyntax(RefSyntax(name), []), [])
  }

  function Atoms(cs: seq<Expr>): (xs: seq<AtomSyntax>)
    ensures |xs| == |cs|
    decreases cs, 0
  {
    if cs == [] then [] else [Atom(cs[0])] + Atoms(cs[1..])
  }

  function Atom(e: Expr): AtomSyntax
    decreases e, 1
  {
    match e
    case Leaf(name) => IdentSyntax(name)
    case Ref(name) => RefSyntax(name)
    case _ => ParenSyntax(Syntax(e))
  }

  function Singles(xs: seq<AtomSyntax>): (ys: seq<AndSyntax>)
    ensures |ys| == |xs|
  {
    if xs == [] then [] else [AndSyntax(xs[0], [])] + Singles(xs[1..])
  }

  lemma OneAtom(a: AtomSyntax)
    ensures SpellOr(OrSyntax(AndSyntax(a, []), [])) == SpellAtom(a)
    ensures TreeOr(OrSyntax(AndSyntax(a, []), [])) == TreeAtom(a)
  {
    var c := AndSyntax(a, []);
    assert SpellAnd(c) == SpellAtom(a);
    assert TreeAnd(c) == TreeAtom(a);
    assert SpellOrRest([]) == [];
  }

  lemma {:induction false} SyntaxDenotes(u: Classes, e: Expr)
    requires Readable(u, e)
    ensures TreeOr(Syntax(e)) == e
    decreases e, 0
  {
    match e
    case Leaf(name) =>
      OneAtom(IdentSyntax(name));
    case Ref(name) =>
      OneAtom(RefSyntax(name));
    case And(cs) =>
      AtomsDenote(u, cs);
      var xs := Atoms(cs);
      assert cs == [TreeAtom(xs[0])] + TreeAtoms(xs[1..]);
    case Or(cs) =>
      AtomsDenote(u, cs);
      var ys := Singles(Atoms(cs));
      SinglesDenote(Atoms(cs));
      assert cs == [TreeAnd(ys[0])] + TreeAnds(ys[1..]);
  }

  lemma {:induction false} AtomsDenote(u: Classes, cs: seq<Expr>)
    requires forall c | c in cs :: Readable(u, c)
    ensures TreeAtoms(Atoms(cs)) == cs
    decreases cs, 0
  {
    if cs != [] {
      var c := cs[0];
      assert c in cs;
      assert TreeAtom(Atom(c)) == c by {
        if c.And? || c.Or? {
          SyntaxDenotes(u, c);
        }
      }
      AtomsDenote(u, cs[1..]);
      assert Atoms(cs)[1..] == Atoms(cs[1..]);
      assert cs == [c] + cs[1..];
    }
  }

  lemma {:induction false} SinglesDenote(xs: seq<AtomSyntax>)
    ensures TreeAnds(Singles(xs)) == TreeAtoms(xs)
  {
    if xs != [] {
      SinglesDenote(xs[1..]);
      assert Singles(xs)[1..] == Singles(xs[1..]);
    }
  }

  /** Tokens as text, with a blank between two tokens. */
  function Word(t: Token): string {
    match t
    case TIdent(name) => name
    case TRef(name) => "+" + name
    case TAnd => "&"
    case TOr => "|"
    case TLParen => "("
    case TRParen => ")"
    case TEof => ""
  }

  function Text(ts: seq<Token>): string {
    if ts == [] then ""
    else if |ts| == 1 then Word(ts[0])
    else Word(ts[0]) + " " + Text(ts[1..])
  }

  ghost predicate Spellable(u: Classes, t: Token) {
    match t
    case TIdent(name) => IsName(u, name)
    case TRef(name) => IsName(u, name)
    case TEof => false
    case _ => true
  }

  lemma {:induction false} SpanOfName(u: Classes, name: string, rest: string)
    requires forall c | c in name :: u.IsIdent(c)
    requires rest != "" ==> !u.IsIdent(rest[0])
    ensures IdentSpan(u, name + rest) == |name|
  {
    if name == "" {
      assert name + rest == rest;
    } else {
      assert (name + rest)[1..] == name[1..] + rest;
      SpanOfName(u, name[1..], rest);
    }
  }

  lemma ReadIdent(u: Classes, name: string, rest: string, at: nat)
    requires u.Standard() && IsName(u, name)
    requires rest != "" ==> rest[0] == ' '
    ensures Read(u, name + rest, at) == Emit(TIdent(name), |name|)
  {
    assert !u.IsIdent(' ');
    SpanOfName(u, name, rest);
    var s := name + rest;
    assert name[0] in name;
    assert s[0] == name[0] && u.IsIdent(s[0]);
    assert s[..|name|] == name;
  }

  lemma ReadRef(u: Classes, name: string, rest: string, at: nat)
    requires u.Standard() && IsName(u, name)
    requires rest != "" ==> rest[0] == ' '
    ensures Read(u, "+" + name + rest, at) == Emit(TRef(name), |name| + 1)
  {
    assert !u.IsIdent(' ');
    SpanOfName(u, name, rest);
    var s := "+" + name + rest;
    assert s[0] == '+' && !u.isSpace('+');
    assert s[1..] == name + rest;
    assert s[1..][..|name|] == name;
  }

  lemma ReadWord(u: Classes, t: Token, rest: string, at: nat)
    requires u.Standard() && Spellable(u, t)
    requires rest != "" ==> rest[0] == ' '
    ensures Word(t) != "" && Read(u, Word(t) + rest, at) == Emit(t, |Word(t)|)
  {
    match t
    case TIdent(name) => ReadIdent(u, name, rest, at);
    case TRef(name) => ReadRef(u, name, rest, at);
    case _ =>
  }

  lemma WordEnds(u: Classes, t: Token)
    requires u.Standard() && Spellable(u, t)
    ensures Word(t) != "" && !u.isSpace(Word(t)[0]) && !u.isSpace(Word(t)[|Word(t)| - 1])
  {
    if t.TIdent? || t.TRef? {
      assert t.name[0] in t.name && t.name[|t.name| - 1] in t.name;
    }
  }

  lemma LexEmit(u: Classes, w: string, rest: string, t: Token, at: nat)
    requires w != "" && Read(u, w + rest, at) == Emit(t, |w|)
    ensures Lex(u, w + rest, at) == Prepend(t, Lex(u, rest, at + |w|))
  {
    assert (w + rest)[|w|..] == rest;
  }

  lemma LexBlank(u: Classes, rest: string, at: nat)
    requires u.Standard()
    ensures Lex(u, " " + rest, at) == Lex(u, rest, at + 1)
  {
    assert (" " + rest)[1..] == rest;
  }

  lemma LexLast(u: Classes, t: Token, at: nat)
    requires u.Standard() && Spellable(u, t)
    ensures Lex(u, Word(t), at) == Ok([t, TEof])
  {
    var w := Word(t);
    ReadWord(u, t, "", at);
    assert w + "" == w;
    LexEmit(u, w, "", t, at);
    assert Lex(u, "", at + |w|) == Ok([TEof]);
    assert [t] + [TEof] == [t, TEof];
  }

  lemma LexNext(u: Classes, t: Token, w: string, more: string, at: nat, body: seq<Token>)
    requires u.Standard() && w != "" && Read(u, w + (" " + more), at) == Emit(t, |w|)
    requires Lex(u, more, at + |w| + 1) == Ok(body)
    ensures Lex(u, w + (" " + more), at) == Ok([t] + body)
  {
    LexEmit(u, w, " " + more, t, at);
    LexBlank(u, more, at + |w|);
  }

  lemma LexWord(u: Classes, t: Token, w: string, more: string, at: nat, body: seq<Token>)
    requires u.Standard() && Spellable(u, t) && w == Word(t)
    requires Lex(u, more, at + |w| + 1) == Ok(body)
    ensures Lex(u, w + (" " + more), at) == Ok([t] + body)
  {
    assert w != "" && Read(u, w + (" " + more), at) == Emit(t, |w|) by {
      ReadWord(u, t, " " + more, at);
    }
    LexNext(u, t, w, more, at, body);
  }

  lemma TextMore(ts: seq<Token>)
    requires |ts| > 1
    ensures Text(ts) == Word(ts[0]) + (" " + Text(ts[1..]))
  {
  }

  ghost predicate AllSpellable(u: Classes, ts: seq<Token>) {
    forall t | t in ts :: Spellable(u, t)
  }

  lemma {:induction false} LexText(u: Classes, ts: seq<Token>, at: nat)
    requires u.Standard() && AllSpellable(u, ts)
    ensures Lex(u, Text(ts), at) == Ok(ts + [TEof])
  {
    if ts == [] {
      assert ts + [TEof] == [TEof];
    } else {
      assert ts[0] in ts;
      if |ts| == 1 {
        LexLast(u, ts[0], at);
        assert ts + [TEof] == [ts[0], TEof];
      } else {
        assert ts == [ts[0]] + ts[1..] && AllSpellable(u, ts[1..]);
        LexText(u, ts[1..], at + |Word(ts[0])| + 1);
        LexWord(u, ts[0], Word(ts[0]), Text(ts[1..]), at, ts[1..] + [TEof]);
        TextMore(ts);
        assert ts + [TEof] == [ts[0]] + (ts[1..] + [TEof]);
      }
    }
  }

  lemma {:induction false} TextEnds(u: Classes, ts: seq<Token>)
    requires u.Standard() && ts != [] && forall t | t in ts :: Spellable(u, t)
    ensures Text(ts) != "" && !u.isSpace(Text(ts)[0]) && !u.isSpace(Text(ts)[|Text(ts)| - 1])
  {
    assert ts[0] in ts;
    WordEnds(u, ts[0]);
    if |ts| > 1 {
      var more := Text(ts[1..]);
      TextEnds(u, ts[1..]);
      assert Text(ts) == Word(ts[0]) + (" " + more);
    }
  }

  lemma {:induction false} SpellingIsSpellable(u: Classes, e: Expr)
    requires Readable(u, e)
    ensures forall t | t in SpellOr(Syntax(e)) :: Spellable(u, t)
    ensures SpellOr(Syntax(e)) != []
    decreases e, 0
  {
    match e
    case Leaf(name) =>
      OneAtom(IdentSyntax(name));
    case Ref(name) =>
      OneAtom(RefSyntax(name));
    case And(cs) =>
      AtomsSpellable(u, cs);
      var xs := Atoms(cs);
      assert SpellOr(Syntax(e)) == SpellAtom(xs[0]) + SpellAndRest(xs[1..]);
      assert SpellAndRest(xs) == [TAnd] + SpellAtom(xs[0]) + SpellAndRest(xs[1..]);
    case Or(cs) =>
      AtomsSpellable(u, cs);
      var ys := Singles(Atoms(cs));
      assert SpellOr(Syntax(e)) == SpellAnd(ys[0]) + SpellOrRest(ys[1..]);
      assert SpellOrRest(ys) == [TOr] + SpellAnd(ys[0]) + SpellOrRest(ys[1..]);
  }

  lemma {:induction false} AtomsSpellable(u: Classes, cs: seq<Expr>)
    requires forall c | c in cs :: Readable(u, c)
    ensures forall t | t in SpellAndRest(Atoms(cs)) :: Spellable(u, t)
    ensures forall t | t in SpellOrRest(Singles(Atoms(cs))) :: Spellable(u, t)
    ensures cs != [] ==> SpellAtom(Atoms(cs)[0]) != []
    decreases cs, 0
  {
    if cs != [] {
      var c := cs[0];
      assert c in cs;
      var a := Atom(c);
      assert SpellAtom(a) != [] && forall t | t in SpellAtom(a) :: Spellable(u, t) by {
        if c.And? || c.Or? {
          SpellingIsSpellable(u, c);
        }
      }
      AtomsSpellable(u, cs[1..]);
      var xs := Atoms(cs);
      assert xs[0] == a && xs[1..] == Atoms(cs[1..]);
      var ys := Singles(xs);
      assert ys[0] == AndSyntax(a, []) && ys[1..] == Singles(xs[1..]);
      assert SpellAnd(ys[0]) == SpellAtom(a);
    }
  }

  /** The text of a tree, with parentheses around every nested operator. */
  function Show(e: Expr): string {
    Text(SpellOr(Syntax(e)))
  }

  /** Reading back what was written gives the tree that was written. */
  lemma ShowThenParse(u: Classes, e: Expr)
    requires u.Standard() && Readable(u, e)
    ensures ParseText(u, Show(e)) == Ok(e)
  {
    var o := Syntax(e);
    var body := SpellOr(o);
    SpellingIsSpellable(u, e);
    LexText(u, body, 0);
    TextEnds(u, body);
    var s := Show(e);
    assert TrimSpace(u, s) == s;
    SyntaxDenotes(u, e);
    assert TEof !in body;
    ParserAcceptsExactlyTheGrammar(body, e);
  }
}
