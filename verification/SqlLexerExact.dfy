/**
 The lexer accepts exactly the texts that are made up of tokens, white space and
 comments, and finds exactly those tokens.
 */
module SqlLexerExact {
  import opened Common
  import opened SqlTokens
  import opened SqlLexer
  import opened SqlLexerFacts

  /** Neither white space nor a comment starts here. */
  predicate Solid(s: string, p: nat) {
    p < |s| && !IsSpace(s[p]) && !CommentAt(s, p)
  }

  /** Blanks are skipped, up to the end of the text or to something else. */
  lemma {:induction false} BlankIsSkipped(s: string, p: nat, q: nat)
    requires p <= q <= |s| && Blank(s, p, q) && (q < |s| ==> Solid(s, q))
    ensures SkipEnd(s, p) == q
    decreases q - p
  {
    if p < q {
      if IsSpace(s[p]) {
        SpaceIsNoComment(s, p);
        BlankIsSkipped(s, p + 1, q);
      } else {
        var e :| p < e <= q && Comment(s, p, e) && Blank(s, e, q);
        CommentEnd(s, p, e);
        BlankIsSkipped(s, e, q);
      }
    }
  }

  lemma {:induction false} SpaceIsNoComment(s: string, p: nat)
    requires p < |s| && IsSpace(s[p])
    ensures forall e :: !Comment(s, p, e)
  {
  }

  /** The ASCII codes of the symbols; the longer of two symbols is taken. */
  lemma {:induction false} SymbolCodes(s: string, p: nat)
    requires p < |s|
    ensures var c, eq, found := s[p] as int, p + 1 < |s| && s[p + 1] as int == 61, SymbolAt(s, p);
            && (found == Some(LPAREN) <==> c == 40) && (found == Some(RPAREN) <==> c == 41)
            && (found == Some(COMMA) <==> c == 44) && (found == Some(SEMICOLON) <==> c == 59)
            && (found == Some(STAR) <==> c == 42) && (found == Some(EQ) <==> c == 61)
            && (found == Some(NEQ) <==> c == 33 && eq)
            && (found == Some(LT) <==> c == 60 && !eq) && (found == Some(LTE) <==> c == 60 && eq)
            && (found == Some(GT) <==> c == 62 && !eq) && (found == Some(GTE) <==> c == 62 && eq)
  {
  }

  // ---------------------------------------------------------------- single tokens

  predicate IsFound(s: string, t: Token) {
    t.pos < |s| && Solid(s, t.pos) && LexemeAt(s, t.pos) == Some(Lexeme(t, End(t)))
  }

  lemma {:induction false} TextIsSlice(s: string, p: nat, t: string)
    requires TextAt(s, p, t)
    ensures s[p..p + |t|] == t
  {
  }

  lemma {:induction false} WordIsFound(s: string, t: Token)
    requires StandsIn(s, t) && (t.typ.IDENT? || t.typ.Key?)
    ensures IsFound(s, t)
  {
    TextIsSlice(s, t.pos, t.literal);
    WordEndIs(s, t.pos, End(t));
  }

  lemma {:induction false} NumberIsFound(s: string, t: Token)
    requires StandsIn(s, t) && t.typ.NUMBER?
    ensures IsFound(s, t)
  {
    TextIsSlice(s, t.pos, t.literal);
    DigitsEndIs(s, t.pos, End(t));
  }

  lemma {:induction false} StringIsFound(s: string, t: Token)
    requires StandsIn(s, t) && t.typ.STRING?
    ensures IsFound(s, t)
  {
    assert Quoted(t.literal) == "'" + (Doubled(t.literal) + "'");
    TextAtSplit(s, t.pos, "'", Doubled(t.literal) + "'");
    assert s[t.pos + 0] == "'"[0];
    StringFromIs(s, t.pos + 1, t.literal);
  }

  lemma {:induction false} SymbolIsFound(s: string, t: Token)
    requires StandsIn(s, t) && t.typ.Sym?
    ensures IsFound(s, t)
  {
    var text := SymbolText(t.typ.symbol);
    assert s[t.pos + 0] == text[0];
    if |text| == 2 {
      assert s[t.pos + 1] == text[1];
    }
  }

  lemma {:induction false} TokenIsFound(s: string, t: Token)
    requires StandsIn(s, t) && t.typ != EOF
    ensures IsFound(s, t)
  {
    match t.typ
    case NUMBER => NumberIsFound(s, t);
    case STRING => StringIsFound(s, t);
    case Sym(_) => SymbolIsFound(s, t);
    case _ => WordIsFound(s, t);
  }

  // ---------------------------------------------------------------- texts

  lemma {:induction false} CoveredIsLexed(s: string, p: nat, ts: seq<Token>)
    requires p <= |s| && Covers(s, p, ts)
    ensures LexFrom(s, p) == Ok(ts)
    decreases |ts|
  {
    if |ts| == 1 {
      BlankIsSkipped(s, p, |s|);
      assert ts == [Token(EOF, "", |s|)];
    } else {
      TokenIsFound(s, ts[0]);
      BlankIsSkipped(s, p, ts[0].pos);
      CoveredIsLexed(s, End(ts[0]), ts[1..]);
      LexOne(s, p, ts[0], End(ts[0]));
      assert [ts[0]] + ts[1..] == ts;
    }
  }

  /** A text lexes to these tokens exactly when they, white space and comments make it up; otherwise it is in error. */
  lemma {:induction false} LexExactly(input: string, ts: seq<Token>)
    ensures Lex(input) == Ok(ts) <==> Covers(input, 0, ts)
  {
    if Lex(input) == Ok(ts) {
      LexIsFaithful(input);
    }
    if Covers(input, 0, ts) {
      CoveredIsLexed(input, 0, ts);
    }
  }
}
