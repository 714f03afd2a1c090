/**
 What the tokens of a text say about the text, and the text of given tokens.
 */
module SqlLexerFacts {
  import opened Common
  import opened SqlTokens
  import opened SqlLexer

  // ---------------------------------------------------------------- faithfulness

  /** The text `t` stands at `p`. */
  predicate TextAt(s: string, p: nat, t: string) {
    p + |t| <= |s| && forall i :: 0 <= i < |t| ==> s[p + i] == t[i]
  }

  /** From `a` to `e` there is a comment: two hyphens and the rest of the line. */
  predicate Comment(s: string, a: nat, e: nat) {
    && a + 2 <= e <= |s| && s[a] == '-' && s[a + 1] == '-'
    && (forall i :: a <= i < e ==> s[i] != '\n')
    && (e < |s| ==> s[e] == '\n')
  }

  /** Between `a` and `b` there is only white space and whole comments. */
  ghost predicate Blank(s: string, a: nat, b: nat)
    requires a <= b <= |s|
    decreases b - a
  {
    || a == b
    || (s[a] in [' ', '\t', '\n', '\r'] && Blank(s, a + 1, b))
    || exists e :: a < e <= b && Comment(s, a, e) && Blank(s, e, b)
  }

  lemma {:induction false} LineEndIs(s: string, p: nat)
    requires p <= |s|
    ensures var q := LineEnd(s, p);
            (forall i :: p <= i < q ==> s[i] != '\n') && (q < |s| ==> s[q] == '\n')
    decreases |s| - p
  {
    if p < |s| && s[p] != '\n' {
      LineEndIs(s, p + 1);
    }
  }

  /** The comment that starts at `p` ends where the line does. */
  lemma {:induction false} CommentEnd(s: string, p: nat, e: nat)
    requires p <= e <= |s|
    ensures CommentAt(s, p) && e == LineEnd(s, p + 1) <==> Comment(s, p, e)
  {
    if p + 1 <= |s| {
      LineEndIs(s, p + 1);
      if CommentAt(s, p) {
        LineEndIs(s, p + 2);
      }
    }
  }

  function End(t: Token): nat {
    t.pos + |Spelling(t.typ, t.literal)|
  }

  predicate NextIsNot(s: string, p: nat, c: char) {
    p >= |s| || s[p] != c
  }

  /** All of `s[p..q]` satisfies `f`, and the run cannot be extended. */
  predicate MaximalRun(s: string, p: nat, q: nat, f: char -> bool) {
    && p < q <= |s|
    && (forall i :: p <= i < q ==> f(s[i]))
    && (q < |s| ==> !f(s[q]))
  }

  /** The token stands in the text, spelled out, and took as much of it as it could. */
  predicate StandsIn(s: string, t: Token) {
    && t.pos < End(t) <= |s|
    && TextAt(s, t.pos, Spelling(t.typ, t.literal))
    && (t.typ == NUMBER ==> MaximalRun(s, t.pos, End(t), IsDigit))
    && (t.typ == STRING ==> NextIsNot(s, End(t), '\''))
    && (t.typ == Sym(LT) || t.typ == Sym(GT) ==> NextIsNot(s, End(t), '='))
    && (t.typ.Sym? ==> t.literal == SymbolText(t.typ.symbol))
    && (t.typ.IDENT? || t.typ.Key? ==>
          && IsLetter(s[t.pos]) && MaximalRun(s, t.pos, End(t), IsLetterOrDigit)
          && t.typ == WordType(t.literal))
  }

  /** The tokens from `p` on cover the text from `p` on, with blanks in between. */
  ghost predicate Covers(s: string, p: nat, ts: seq<Token>)
    requires p <= |s|
    decreases |ts|
  {
    && ts != []
    && p <= ts[0].pos <= |s|
    && Blank(s, p, ts[0].pos)
    && if |ts| == 1 then ts[0] == Token(EOF, "", |s|)
       else ts[0].typ != EOF && StandsIn(s, ts[0]) && Covers(s, End(ts[0]), ts[1..])
  }

  lemma {:induction false} SkipEndBlank(s: string, p: nat)
    requires p <= |s|
    ensures Blank(s, p, SkipEnd(s, p))
    decreases |s| - p
  {
    if p < |s| {
      if IsSpace(s[p]) {
        SkipEndBlank(s, p + 1);
      } else if CommentAt(s, p) {
        var e := LineEnd(s, p + 1);
        CommentEnd(s, p, e);
        SkipEndBlank(s, e);
        assert Comment(s, p, e) && Blank(s, e, SkipEnd(s, p));
      }
    }
  }

  lemma {:induction false} WordEndMaximal(s: string, p: nat)
    requires p <= |s|
    ensures forall i :: p <= i < WordEnd(s, p) ==> IsLetterOrDigit(s[i])
    ensures WordEnd(s, p) < |s| ==> !IsLetterOrDigit(s[WordEnd(s, p)])
    decreases |s| - p
  {
    if p < |s| && IsLetterOrDigit(s[p]) {
      WordEndMaximal(s, p + 1);
    }
  }

  lemma {:induction false} DigitsEndMaximal(s: string, p: nat)
    requires p <= |s|
    ensures forall i :: p <= i < DigitsEnd(s, p) ==> IsDigit(s[i])
    ensures DigitsEnd(s, p) < |s| ==> !IsDigit(s[DigitsEnd(s, p)])
    decreases |s| - p
  {
    if p < |s| && IsDigit(s[p]) {
      DigitsEndMaximal(s, p + 1);
    }
  }

  lemma {:induction false} DoubledHead(literal: string)
    requires literal != ""
    ensures var head := if literal[0] == '\'' then "''" else [literal[0]];
            Doubled(literal) == head + Doubled(literal[1..])
            && Doubled(literal) + "'" == head + (Doubled(literal[1..]) + "'")
  {
  }

  lemma {:induction false} TextAtJoin(s: string, p: nat, a: string, b: string)
    requires TextAt(s, p, a) && TextAt(s, p + |a|, b)
    ensures TextAt(s, p, a + b)
  {
    forall i | 0 <= i < |a + b| ensures s[p + i] == (a + b)[i] {
      if i >= |a| {
        assert s[p + |a| + (i - |a|)] == b[i - |a|];
      }
    }
  }

  /** A scanned literal is spelled by doubling its quotes and closing it. */
  lemma {:induction false} StringFromSpelled(s: string, p: nat)
    requires p <= |s| && StringFrom(s, p).Some?
    ensures var (literal, q) := StringFrom(s, p).value;
            && TextAt(s, p, Doubled(literal) + "'") && q == p + |Doubled(literal)| + 1
            && NextIsNot(s, q, '\'')
    decreases |s| - p
  {
    var (literal, q) := StringFrom(s, p).value;
    if s[p] == '\'' && (p + 1 == |s| || s[p + 1] != '\'') {
      assert Doubled(literal) + "'" == "'";
    } else {
      var head := if s[p] == '\'' then "''" else [s[p]];
      StringFromSpelled(s, p + |head|);
      var rest := StringFrom(s, p + |head|).value.0;
      assert literal == [s[p]] + rest;
      assert literal[1..] == rest;
      DoubledHead(literal);
      TextAtJoin(s, p, head, Doubled(rest) + "'");
    }
  }

  lemma {:induction false} WordStandsIn(s: string, p: nat)
    requires p < |s| && IsLetter(s[p])
    ensures var q := WordEnd(s, p);
            p < q && StandsIn(s, Token(WordType(s[p..q]), s[p..q], p)) && WordType(s[p..q]) != EOF
  {
    var q := WordEnd(s, p);
    WordEndMaximal(s, p);
    assert |s[p..q]| == q - p;
  }

  lemma {:induction false} StringStandsIn(s: string, p: nat)
    requires p < |s| && s[p] == '\'' && StringFrom(s, p + 1).Some?
    ensures var (literal, q) := StringFrom(s, p + 1).value;
            StandsIn(s, Token(STRING, literal, p)) && End(Token(STRING, literal, p)) == q
  {
    StringFromSpelled(s, p + 1);
    var (literal, q) := StringFrom(s, p + 1).value;
    TextAtJoin(s, p, "'", Doubled(literal) + "'");
    assert Quoted(literal) == "'" + (Doubled(literal) + "'");
  }

  lemma {:induction false} LexemeStandsIn(s: string, p: nat)
    requires p < |s| && LexemeAt(s, p).Some?
    ensures var x := LexemeAt(s, p).value;
            x.token.typ != EOF && StandsIn(s, x.token) && End(x.token) == x.end
  {
    if IsLetter(s[p]) {
      WordStandsIn(s, p);
      var q := WordEnd(s, p);
      assert |s[p..q]| == q - p;
    } else if IsDigit(s[p]) {
      DigitsEndMaximal(s, p);
    } else if s[p] == '\'' {
      StringStandsIn(s, p);
    }
  }

  lemma {:induction false} LexFromCovers(s: string, p: nat)
    requires p <= |s| && LexFrom(s, p).Ok?
    ensures Covers(s, p, LexFrom(s, p).value)
    decreases |s| - p
  {
    var q := SkipEnd(s, p);
    SkipEndBlank(s, p);
    if q < |s| {
      LexemeStandsIn(s, q);
      var x := LexemeAt(s, q).value;
      LexFromCovers(s, x.end);
      assert LexFrom(s, p).value[1..] == LexFrom(s, x.end).value;
    }
  }

  /** On every text it accepts, the lexer's tokens and blanks make up the text. */
  lemma {:induction false} LexIsFaithful(input: string)
    requires Lex(input).Ok?
    ensures Covers(input, 0, Lex(input).value)
  {
    LexFromCovers(input, 0);
  }

  lemma {:induction false} FirstToken(s: string, p: nat, ts: seq<Token>)
    requires p <= |s| && Covers(s, p, ts)
    ensures ts != [] && p <= ts[0].pos <= |s|
    ensures |ts| > 1 ==> ts[0].pos < End(ts[0]) <= |s| && Covers(s, End(ts[0]), ts[1..])
  {
  }

  /** Each token but the last ends before the next begins, all of them between `p` and `n`. */
  ghost predicate Spaced(p: nat, ts: seq<Token>, n: nat)
    decreases |ts|
  {
    && ts != [] && p <= ts[0].pos <= n
    && (|ts| > 1 ==> ts[0].pos < End(ts[0]) <= n && Spaced(End(ts[0]), ts[1..], n))
  }

  lemma {:induction false} CoversSpaced(s: string, p: nat, ts: seq<Token>)
    requires p <= |s| && Covers(s, p, ts)
    ensures Spaced(p, ts, |s|)
    decreases |ts|
  {
    FirstToken(s, p, ts);
    if |ts| > 1 {
      CoversSpaced(s, End(ts[0]), ts[1..]);
    }
  }

  lemma {:induction false} SpacedBehind(p: nat, ts: seq<Token>, n: nat, j: nat)
    requires Spaced(p, ts, n) && j < |ts|
    ensures p <= ts[j].pos <= n
    decreases |ts|
  {
    if j > 0 {
      SpacedBehind(End(ts[0]), ts[1..], n, j - 1);
    }
  }

  lemma {:induction false} SpacedIncrease(p: nat, ts: seq<Token>, n: nat, i: nat, j: nat)
    requires Spaced(p, ts, n) && i < j < |ts|
    ensures p <= ts[i].pos < End(ts[i]) <= ts[j].pos <= n
    decreases |ts|
  {
    if i > 0 {
      SpacedIncrease(End(ts[0]), ts[1..], n, i - 1, j - 1);
    } else {
      SpacedBehind(End(ts[0]), ts[1..], n, j - 1);
    }
  }

  /** Token positions strictly increase, and no token reaches into the next. */
  lemma {:induction false} PositionsIncrease(s: string, p: nat, ts: seq<Token>, i: nat, j: nat)
    requires p <= |s| && Covers(s, p, ts) && i < j < |ts|
    ensures p <= ts[i].pos < End(ts[i]) <= ts[j].pos <= |s|
  {
    CoversSpaced(s, p, ts);
    SpacedIncrease(p, ts, |s|, i, j);
  }

  lemma {:induction false} IdentifierStands(s: string, t: Token)
    requires t.typ == IDENT && StandsIn(s, t)
    ensures IsIdentifier(t.literal)
  {
    forall k | 0 <= k < |t.literal| ensures IsLetterOrDigit(t.literal[k]) {
      assert s[t.pos + k] == t.literal[k];
    }
    assert s[t.pos + 0] == t.literal[0];
  }

  /** Every token of an accepted text stands in it; identifiers never contain a slash. */
  lemma {:induction false} EveryTokenStands(s: string, p: nat, ts: seq<Token>, i: nat)
    requires p <= |s| && Covers(s, p, ts) && i < |ts|
    ensures ts[i].typ == EOF || StandsIn(s, ts[i])
    ensures ts[i].typ == IDENT ==> IsIdentifier(ts[i].literal)
    decreases |ts|
  {
    if i > 0 {
      EveryTokenStands(s, End(ts[0]), ts[1..], i - 1);
    } else if ts[0].typ == IDENT {
      IdentifierStands(s, ts[0]);
    }
  }

  /** A word that is not a keyword. */
  predicate IsIdentifier(word: string) {
    && word != "" && IsLetter(word[0])
    && (forall i :: 0 <= i < |word| ==> IsLetterOrDigit(word[i]))
    && WordType(word) == IDENT
  }

  // ---------------------------------------------------------------- rendering tokens

  /** A token without its position. */
  datatype Word = Word(typ: TokenType, literal: string)

  /** The word can be written down. */
  predicate Writable(w: Word) {
    match w.typ
    case IDENT => IsIdentifier(w.literal)
    case NUMBER => w.literal != "" && forall i :: 0 <= i < |w.literal| ==> IsDigit(w.literal[i])
    case STRING => true
    case EOF => false
    case Sym(symbol) => w.literal == SymbolText(symbol)
    case Key(_) =>
      && w.literal != "" && IsLetter(w.literal[0])
      && (forall i :: 0 <= i < |w.literal| ==> IsLetterOrDigit(w.literal[i]))
      && WordType(w.literal) == w.typ
  }

  /** The words, each followed by a space. */
  function Render(ws: seq<Word>): string {
    if ws == [] then "" else Spelling(ws[0].typ, ws[0].literal) + " " + Render(ws[1..])
  }

  lemma {:induction false} TextAtSplit(s: string, p: nat, a: string, b: string)
    requires TextAt(s, p, a + b)
    ensures TextAt(s, p, a) && TextAt(s, p + |a|, b)
  {
    forall i | 0 <= i < |a| ensures s[p + i] == a[i] {
      assert (a + b)[i] == a[i];
    }
    forall i | 0 <= i < |b| ensures s[p + |a| + i] == b[i] {
      assert (a + b)[|a| + i] == b[i];
    }
  }

  lemma {:induction false} WordEndIs(s: string, p: nat, q: nat)
    requires p <= q <= |s|
    requires forall i :: p <= i < q ==> IsLetterOrDigit(s[i])
    requires q < |s| ==> !IsLetterOrDigit(s[q])
    ensures WordEnd(s, p) == q
    decreases q - p
  {
    if p < q {
      WordEndIs(s, p + 1, q);
    }
  }

  lemma {:induction false} DigitsEndIs(s: string, p: nat, q: nat)
    requires p <= q <= |s|
    requires forall i :: p <= i < q ==> IsDigit(s[i])
    requires q < |s| ==> !IsDigit(s[q])
    ensures DigitsEnd(s, p) == q
    decreases q - p
  {
    if p < q {
      DigitsEndIs(s, p + 1, q);
    }
  }

  lemma {:induction false} StringFromIs(s: string, p: nat, literal: string)
    requires TextAt(s, p, Doubled(literal) + "'")
    requires NextIsNot(s, p + |Doubled(literal)| + 1, '\'')
    ensures StringFrom(s, p) == Some((literal, p + |Doubled(literal)| + 1))
    decreases |literal|
  {
    if literal == "" {
      assert (Doubled(literal) + "'")[0] == '\'';
    } else {
      var head := if literal[0] == '\'' then "''" else [literal[0]];
      var rest := literal[1..];
      DoubledHead(literal);
      TextAtSplit(s, p, head, Doubled(rest) + "'");
      StringFromIs(s, p + |head|, rest);
      assert s[p + 0] == head[0];
      assert literal[0] == '\'' ==> s[p + 1] == head[1];
      assert [literal[0]] + rest == literal;
      StringFromHead(s, p, literal[0], rest, p + |Doubled(literal)| + 1);
    }
  }

  lemma {:induction false} StringFromHead(s: string, p: nat, c: char, rest: string, q: nat)
    requires p < |s|
    requires c != '\'' ==> s[p] == c && StringFrom(s, p + 1) == Some((rest, q))
    requires c == '\'' ==>
               p + 1 < |s| && s[p] == s[p + 1] == '\'' && StringFrom(s, p + 2) == Some((rest, q))
    ensures StringFrom(s, p) == Some(([c] + rest, q))
  {
  }

  lemma {:induction false} QuotedReadBack(s: string, p: nat, literal: string)
    requires TextAt(s, p, Quoted(literal) + " ")
    ensures p < |s| && s[p] == '\'' && StringFrom(s, p + 1) == Some((literal, p + |Quoted(literal)|))
  {
    var text := Quoted(literal);
    TextAtSplit(s, p, text, " ");
    assert s[p + |text| + 0] == " "[0];
    assert text == "'" + (Doubled(literal) + "'");
    TextAtSplit(s, p, "'", Doubled(literal) + "'");
    assert s[p + 0] == "'"[0];
    StringFromIs(s, p + 1, literal);
  }

  lemma {:induction false} DigitsReadBack(s: string, p: nat, literal: string)
    requires literal != "" && forall i :: 0 <= i < |literal| ==> IsDigit(literal[i])
    requires TextAt(s, p, literal + " ")
    ensures p < |s| && IsDigit(s[p]) && DigitsEnd(s, p) == p + |literal| && s[p..p + |literal|] == literal
  {
    TextAtSplit(s, p, literal, " ");
    assert s[p + |literal| + 0] == " "[0];
    assert s[p + 0] == literal[0];
    forall i | p <= i < p + |literal| ensures IsDigit(s[i]) {
      assert s[p + (i - p)] == literal[i - p];
    }
    DigitsEndIs(s, p, p + |literal|);
  }

  lemma {:induction false} LettersReadBack(s: string, p: nat, literal: string)
    requires literal != "" && IsLetter(literal[0]) && forall i :: 0 <= i < |literal| ==> IsLetterOrDigit(literal[i])
    requires TextAt(s, p, literal + " ")
    ensures p < |s| && IsLetter(s[p]) && WordEnd(s, p) == p + |literal| && s[p..p + |literal|] == literal
  {
    TextAtSplit(s, p, literal, " ");
    assert s[p + |literal| + 0] == " "[0];
    assert s[p + 0] == literal[0];
    forall i | p <= i < p + |literal| ensures IsLetterOrDigit(s[i]) {
      assert s[p + (i - p)] == literal[i - p];
    }
    WordEndIs(s, p, p + |literal|);
  }

  lemma {:induction false} SymbolReadBack(s: string, p: nat, t: Symbol)
    requires TextAt(s, p, SymbolText(t) + " ")
    ensures p < |s| && SymbolAt(s, p) == Some(t)
    ensures !IsLetterOrDigit(s[p]) && !IsSpace(s[p]) && s[p] != '-' && s[p] != '\''
  {
    var text := SymbolText(t);
    TextAtSplit(s, p, text, " ");
    assert s[p + |text| + 0] == " "[0];
    assert s[p + 0] == text[0];
    if |text| == 2 {
      assert s[p + 1] == text[1];
    }
  }

  /** The word stands at `p` and is what is read there. */
  predicate WordIsRead(s: string, p: nat, w: Word) {
    && p < |s| && !IsSpace(s[p]) && !CommentAt(s, p)
    && LexemeAt(s, p) == Some(Lexeme(Token(w.typ, w.literal, p), p + |Spelling(w.typ, w.literal)|))
  }

  lemma {:induction false} NumberIsRead(s: string, p: nat, w: Word)
    requires w.typ == NUMBER && Writable(w) && TextAt(s, p, Spelling(w.typ, w.literal) + " ")
    ensures WordIsRead(s, p, w)
  {
    DigitsReadBack(s, p, w.literal);
  }

  lemma {:induction false} StringIsRead(s: string, p: nat, w: Word)
    requires w.typ == STRING && Writable(w) && TextAt(s, p, Spelling(w.typ, w.literal) + " ")
    ensures WordIsRead(s, p, w)
  {
    QuotedReadBack(s, p, w.literal);
  }

  lemma {:induction false} SymbolIsRead(s: string, p: nat, w: Word)
    requires w.typ.Sym? && Writable(w) && TextAt(s, p, Spelling(w.typ, w.literal) + " ")
    ensures WordIsRead(s, p, w)
  {
    SymbolReadBack(s, p, w.typ.symbol);
  }

  lemma {:induction false} LettersAreRead(s: string, p: nat, w: Word)
    requires (w.typ == IDENT || w.typ.Key?) && Writable(w) && TextAt(s, p, Spelling(w.typ, w.literal) + " ")
    ensures WordIsRead(s, p, w)
  {
    LettersReadBack(s, p, w.literal);
  }

  /** A written word followed by a space is read back as that word. */
  lemma {:induction false} WordReadBack(s: string, p: nat, w: Word)
    requires Writable(w) && TextAt(s, p, Spelling(w.typ, w.literal) + " ")
    ensures WordIsRead(s, p, w)
  {
    match w.typ
    case NUMBER => NumberIsRead(s, p, w);
    case STRING => StringIsRead(s, p, w);
    case Sym(_) => SymbolIsRead(s, p, w);
    case _ => LettersAreRead(s, p, w);
  }

  /** The tokens are the words, in order, and then the end of the text. */
  predicate Reads(ts: seq<Token>, ws: seq<Word>) {
    && |ts| == |ws| + 1
    && (forall i :: 0 <= i < |ws| ==> ts[i].typ == ws[i].typ && ts[i].literal == ws[i].literal)
    && ts[|ws|].typ == EOF
  }

  /** Reading from the space after a word skips that space. */
  lemma {:induction false} SkipOneSpace(s: string, p: nat)
    requires p < |s| && s[p] == ' '
    requires p + 1 < |s| ==> !IsSpace(s[p + 1]) && !CommentAt(s, p + 1)
    ensures SkipEnd(s, p) == p + 1
  {
  }

  lemma {:induction false} LexOne(s: string, p: nat, t: Token, q: nat)
    requires p <= |s| && SkipEnd(s, p) < |s|
    requires LexemeAt(s, SkipEnd(s, p)) == Some(Lexeme(t, q))
    ensures q <= |s| && LexFrom(s, p) == Prepend([t], LexFrom(s, q))
  {
  }

  lemma {:induction false} ReadAfterSpace(s: string, p: nat, w: Word)
    requires p < |s| && s[p] == ' ' && WordIsRead(s, p + 1, w)
    ensures var q := p + 1 + |Spelling(w.typ, w.literal)|;
            q <= |s| && LexFrom(s, p) == Prepend([Token(w.typ, w.literal, p + 1)], LexFrom(s, q))
  {
    SkipOneSpace(s, p);
    LexOne(s, p, Token(w.typ, w.literal, p + 1), p + 1 + |Spelling(w.typ, w.literal)|);
  }

  /** A space, a text and a space stand one behind the other. */
  lemma {:induction false} SpacedText(s: string, p: nat, text: string, rest: string)
    requires TextAt(s, p, " " + (text + " " + rest))
    ensures p < |s| && s[p] == ' ' && TextAt(s, p + 1, text + " ") && TextAt(s, p + 1 + |text|, " " + rest)
  {
    TextAtSplit(s, p, " ", text + " " + rest);
    assert s[p + 0] == " "[0];
    TextAtSplit(s, p + 1, text + " ", rest);
    assert text + " " + rest == text + (" " + rest);
    TextAtSplit(s, p + 1, text, " " + rest);
  }

  /** One space and a written word are read as that word, up to the space behind it. */
  lemma {:induction false} FirstWordReadBack(s: string, p: nat, w: Word, rest: string)
    requires Writable(w)
    requires TextAt(s, p, " " + (Spelling(w.typ, w.literal) + " " + rest))
    ensures var q := p + 1 + |Spelling(w.typ, w.literal)|;
            && TextAt(s, q, " " + rest)
            && LexFrom(s, p) == Prepend([Token(w.typ, w.literal, p + 1)], LexFrom(s, q))
  {
    SpacedText(s, p, Spelling(w.typ, w.literal), rest);
    WordReadBack(s, p + 1, w);
    ReadAfterSpace(s, p, w);
  }

  /** A successful result that reads as the words. */
  predicate ReadsOk(r: Result<seq<Token>>, ws: seq<Word>) {
    r.Ok? && Reads(r.value, ws)
  }

  lemma {:induction false} ReadsOneMore(t: Token, r: Result<seq<Token>>, ws: seq<Word>)
    requires ws != [] && ReadsOk(r, ws[1..]) && t.typ == ws[0].typ && t.literal == ws[0].literal
    ensures ReadsOk(Prepend([t], r), ws)
  {
    var ts := [t] + r.value;
    forall i | 0 <= i < |ws| ensures ts[i].typ == ws[i].typ && ts[i].literal == ws[i].literal {
      if i > 0 {
        assert ts[i] == r.value[i - 1] && ws[i] == ws[1..][i - 1];
      }
    }
  }

  lemma {:induction false} NoWordsReadBack(s: string, p: nat)
    requires p + 1 == |s| && s[p] == ' '
    ensures ReadsOk(LexFrom(s, p), [])
  {
    SkipOneSpace(s, p);
  }

  lemma {:induction false} RenderReadBack(s: string, p: nat, ws: seq<Word>)
    requires forall i :: 0 <= i < |ws| ==> Writable(ws[i])
    requires TextAt(s, p, " " + Render(ws)) && p + 1 + |Render(ws)| == |s|
    ensures ReadsOk(LexFrom(s, p), ws)
    decreases |ws|
  {
    if ws == [] {
      assert s[p + 0] == (" " + Render(ws))[0];
      NoWordsReadBack(s, p);
    } else {
      var w, rest := ws[0], ws[1..];
      var q := p + 1 + |Spelling(w.typ, w.literal)|;
      FirstWordReadBack(s, p, w, Render(rest));
      RenderReadBack(s, q, rest);
      ReadsOneMore(Token(w.typ, w.literal, p + 1), LexFrom(s, q), ws);
    }
  }

  /** The lexer undoes rendering, for all words in all spellings. */
  lemma {:induction false} LexUndoesRender(ws: seq<Word>)
    requires forall i :: 0 <= i < |ws| ==> Writable(ws[i])
    ensures ReadsOk(Lex(" " + Render(ws)), ws)
  {
    RenderReadBack(" " + Render(ws), 0, ws);
  }
}
