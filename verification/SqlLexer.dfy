/**
 The lexer: what each scan finds from a position of the text, and the object
 that performs the scans.
 */
module SqlLexer {
  import opened Common
  import opened SqlTokens

  // ---------------------------------------------------------------- scans

  predicate CommentAt(s: string, p: nat) {
    p + 1 < |s| && s[p] == '-' && s[p + 1] == '-'
  }

  /** The end of the line that `p` is on. */
  function LineEnd(s: string, p: nat): (q: nat)
    requires p <= |s|
    ensures p <= q <= |s|
    decreases |s| - p
  {
    if p == |s| || s[p] == '\n' then p else LineEnd(s, p + 1)
  }

  /** The first position from `p` on that is neither white space nor in a comment. */
  function SkipEnd(s: string, p: nat): (q: nat)
    requires p <= |s|
    ensures p <= q <= |s|
    decreases |s| - p
  {
    if p == |s| then p
    else if IsSpace(s[p]) then SkipEnd(s, p + 1)
    else if CommentAt(s, p) then SkipEnd(s, LineEnd(s, p + 1))
    else p
  }

  function WordEnd(s: string, p: nat): (q: nat)
    requires p <= |s|
    ensures p <= q <= |s|
    decreases |s| - p
  {
    if p == |s| || !IsLetterOrDigit(s[p]) then p else WordEnd(s, p + 1)
  }

  function DigitsEnd(s: string, p: nat): (q: nat)
    requires p <= |s|
    ensures p <= q <= |s|
    decreases |s| - p
  {
    if p == |s| || !IsDigit(s[p]) then p else DigitsEnd(s, p + 1)
  }

  /** A piece of a literal, put in front of what follows. */
  function Extend(piece: string, r: Option<(string, nat)>): Option<(string, nat)> {
    if r.None? then None else Some((piece + r.value.0, r.value.1))
  }

  /** The string literal whose inside starts at `p`, and the position after its closing quote. */
  function StringFrom(s: string, p: nat): (r: Option<(string, nat)>)
    requires p <= |s|
    ensures r.Some? ==> p < r.value.1 <= |s|
    decreases |s| - p
  {
    if p == |s| then None
    else if s[p] != '\'' then Extend([s[p]], StringFrom(s, p + 1))
    else if p + 1 < |s| && s[p + 1] == '\'' then Extend("'", StringFrom(s, p + 2))
    else Some(("", p + 1))
  }

  function SymbolAt(s: string, p: nat): Option<Symbol>
    requires p < |s|
  {
    var eq := p + 1 < |s| && s[p + 1] == '=';
    match s[p]
    case '(' => Some(LPAREN)
    case ')' => Some(RPAREN)
    case ',' => Some(COMMA)
    case ';' => Some(SEMICOLON)
    case '*' => Some(STAR)
    case '=' => Some(EQ)
    case '!' => if eq then Some(NEQ) else None
    case '<' => Some(if eq then LTE else LT)
    case '>' => Some(if eq then GTE else GT)
    case _ => None
  }

  datatype Lexeme = Lexeme(token: Token, end: nat)

  /** The token that starts at `p`, and where it ends. */
  function LexemeAt(s: string, p: nat): (r: Option<Lexeme>)
    requires p < |s|
    ensures r.Some? ==> r.value.token.pos == p < r.value.end <= |s|
  {
    if IsLetter(s[p]) then
      var q := WordEnd(s, p);
      Some(Lexeme(Token(WordType(s[p..q]), s[p..q], p), q))
    else if IsDigit(s[p]) then
      var q := DigitsEnd(s, p);
      Some(Lexeme(Token(NUMBER, s[p..q], p), q))
    else if s[p] == '\'' then
      var r := StringFrom(s, p + 1);
      if r.None? then None else Some(Lexeme(Token(STRING, r.value.0, p), r.value.1))
    else
      var t := SymbolAt(s, p);
      if t.None? then None else Some(Lexeme(Token(Sym(t.value), SymbolText(t.value), p), p + |SymbolText(t.value)|))
  }

  function Prepend(ts: seq<Token>, r: Result<seq<Token>>): Result<seq<Token>> {
    if r.Err? then Err else Ok(ts + r.value)
  }

  /** The tokens from position `p` on. */
  function LexFrom(s: string, p: nat): Result<seq<Token>>
    requires p <= |s|
    decreases |s| - p
  {
    var q := SkipEnd(s, p);
    if q == |s| then Ok([Token(EOF, "", q)])
    else
      var x := LexemeAt(s, q);
      if x.None? then Err else Prepend([x.value.token], LexFrom(s, x.value.end))
  }

  function Lex(input: string): Result<seq<Token>> {
    LexFrom(input, 0)
  }

  // ---------------------------------------------------------------- the scanner

  class Lexer {
    const input: string
    var pos: nat

    ghost predicate Valid()
      reads this
    {
      pos <= |input|
    }

    constructor (input: string)
      ensures Valid() && this.input == input && pos == 0
    {
      this.input := input;
      pos := 0;
    }

    method SkipWhitespaceAndComments()
      requires Valid()
      modifies this
      ensures Valid() && pos == SkipEnd(input, old(pos))
    {
      while pos < |input|
        invariant Valid() && SkipEnd(input, pos) == SkipEnd(input, old(pos))
      {
        var ch := input[pos];
        if IsSpace(ch) {
          pos := pos + 1;
          continue;
        }
        if ch == '-' && pos + 1 < |input| && input[pos + 1] == '-' {
          ghost var start := pos;
          while pos < |input| && input[pos] != '\n'
            invariant start <= pos <= |input|
            invariant LineEnd(input, pos) == LineEnd(input, start) == LineEnd(input, start + 1)
          {
            pos := pos + 1;
          }
          continue;
        }
        break;
      }
    }

    method LexIdentOrKeyword() returns (tok: Token)
      requires Valid() && pos < |input| && IsLetter(input[pos])
      modifies this
      ensures Valid() && LexemeAt(input, old(pos)) == Some(Lexeme(tok, pos))
    {
      var start := pos;
      while pos < |input| && IsLetterOrDigit(input[pos])
        invariant start <= pos <= |input| && WordEnd(input, pos) == WordEnd(input, start)
      {
        pos := pos + 1;
      }
      var literal := input[start..pos];
      var lower := ToLower(literal);
      tok := Token(Lookup(KEYWORDS, lower), literal, start);
    }

    method LexNumber() returns (tok: Token)
      requires Valid() && pos < |input| && IsDigit(input[pos])
      modifies this
      ensures Valid() && LexemeAt(input, old(pos)) == Some(Lexeme(tok, pos))
    {
      var start := pos;
      while pos < |input| && IsDigit(input[pos])
        invariant start <= pos <= |input| && DigitsEnd(input, pos) == DigitsEnd(input, start)
      {
        pos := pos + 1;
      }
      tok := Token(NUMBER, input[start..pos], start);
    }

    /** The rest of a string literal, after its opening quote. */
    method ScanString() returns (literal: Option<string>)
      requires Valid()
      modifies this
      ensures Valid()
      ensures StringFrom(input, old(pos)) == if literal.None? then None else Some((literal.value, pos))
    {
      var sb := "";
      ExtendNothing(StringFrom(input, pos));
      while true
        invariant Valid() && StringFrom(input, old(pos)) == Extend(sb, StringFrom(input, pos))
        decreases |input| - pos
      {
        if pos >= |input| {
          return None;
        }
        var ch := input[pos];
        pos := pos + 1;
        if ch == '\'' {
          if pos < |input| && input[pos] == '\'' {
            ExtendTwice(sb, "'", StringFrom(input, pos + 1));
            pos := pos + 1;
            sb := sb + "'";
          } else {
            assert sb + "" == sb;
            break;
          }
        } else {
          ExtendTwice(sb, [ch], StringFrom(input, pos));
          sb := sb + [ch];
        }
      }
      literal := Some(sb);
    }

    method LexString() returns (tok: Option<Token>)
      requires Valid() && pos < |input| && input[pos] == '\''
      modifies this
      ensures Valid()
      ensures LexemeAt(input, old(pos)) == if tok.None? then None else Some(Lexeme(tok.value, pos))
    {
      var start := pos;
      pos := pos + 1;
      var literal := ScanString();
      tok := if literal.None? then None else Some(Token(STRING, literal.value, start));
    }

    /** The token at the current position. */
    method ScanToken() returns (tok: Option<Token>)
      requires Valid() && pos < |input|
      modifies this
      ensures Valid()
      ensures LexemeAt(input, old(pos)) == if tok.None? then None else Some(Lexeme(tok.value, pos))
    {
      var ch := input[pos];
      if IsLetter(ch) {
        var t := LexIdentOrKeyword();
        tok := Some(t);
      } else if IsDigit(ch) {
        var t := LexNumber();
        tok := Some(t);
      } else if ch == '\'' {
        tok := LexString();
      } else {
        var t := SymbolAt(input, pos);
        if t.None? {
          return None;
        }
        tok := Some(Token(Sym(t.value), SymbolText(t.value), pos));
        pos := pos + |SymbolText(t.value)|;
      }
    }

    /** All tokens of the text, or nothing if a character cannot start one. */
    method Tokenize() returns (r: Result<seq<Token>>)
      requires Valid() && pos == 0
      modifies this
      ensures r == Lex(input)
    {
      var tokens: seq<Token> := [];
      PrependNothing(Lex(input));
      while true
        invariant Valid() && Lex(input) == Prepend(tokens, LexFrom(input, pos))
        decreases |input| - pos
      {
        ghost var before := pos;
        SkipWhitespaceAndComments();
        if pos >= |input| {
          tokens := tokens + [Token(EOF, "", pos)];
          return Ok(tokens);
        }
        var tok := ScanToken();
        if tok.None? {
          return Err;
        }
        assert LexFrom(input, before) == Prepend([tok.value], LexFrom(input, pos));
        PrependTwice(tokens, tok.value, LexFrom(input, pos));
        tokens := tokens + [tok.value];
      }
    }
  }

  lemma {:induction false} ExtendNothing(r: Option<(string, nat)>)
    ensures Extend("", r) == r
  {
    if r.Some? {
      assert "" + r.value.0 == r.value.0;
    }
  }

  lemma {:induction false} ExtendTwice(a: string, b: string, r: Option<(string, nat)>)
    ensures Extend(a, Extend(b, r)) == Extend(a + b, r)
  {
    if r.Some? {
      assert a + (b + r.value.0) == a + b + r.value.0;
    }
  }

  lemma {:induction false} PrependNothing(r: Result<seq<Token>>)
    ensures Prepend([], r) == r
  {
    if r.Ok? {
      assert [] + r.value == r.value;
    }
  }

  lemma {:induction false} PrependTwice(ts: seq<Token>, t: Token, r: Result<seq<Token>>)
    ensures Prepend(ts, Prepend([t], r)) == Prepend(ts + [t], r)
  {
    if r.Ok? {
      assert ts + ([t] + r.value) == ts + [t] + r.value;
    }
  }
}
