/**
 The parser undoes the printer: reading the words of a statement gives the
 statement back, whatever the case of the keywords.
 */
module SqlRoundTrip {
  import opened Common
  import opened SqlTokens
  import opened SqlAst
  import opened SqlLexerFacts
  import opened SqlParser
  import opened SqlPrinter

  // ---------------------------------------------------------------- words among tokens

  /** The token is the word; how a keyword or a symbol was spelled does not matter any more. */
  predicate TokenIs(t: Token, w: Word) {
    t.typ == w.typ && (t.typ.Key? || t.typ.Sym? || t.literal == w.literal)
  }

  /** The words stand at `p`. */
  predicate WordsAt(ts: seq<Token>, p: nat, ws: seq<Word>) {
    p + |ws| <= |ts| && forall i :: 0 <= i < |ws| ==> TokenIs(ts[p + i], ws[i])
  }

  lemma {:induction false} WordsSplit(ts: seq<Token>, p: nat, a: seq<Word>, b: seq<Word>)
    requires WordsAt(ts, p, a + b)
    ensures WordsAt(ts, p, a) && WordsAt(ts, p + |a|, b)
  {
    forall i | 0 <= i < |a| ensures TokenIs(ts[p + i], a[i]) {
      assert (a + b)[i] == a[i];
    }
    forall i | 0 <= i < |b| ensures TokenIs(ts[p + |a| + i], b[i]) {
      assert (a + b)[|a| + i] == b[i];
    }
  }

  lemma {:induction false} WordsSplit3(ts: seq<Token>, p: nat, a: seq<Word>, b: seq<Word>, c: seq<Word>)
    requires WordsAt(ts, p, a + b + c)
    ensures WordsAt(ts, p, a) && WordsAt(ts, p + |a|, b) && WordsAt(ts, p + |a| + |b|, c)
  {
    WordsSplit(ts, p, a + b, c);
    WordsSplit(ts, p, a, b);
  }

  lemma {:induction false} WordAt(ts: seq<Token>, p: nat, w: Word)
    requires WordsAt(ts, p, [w])
    ensures p < |ts| && TokenIs(ts[p], w) && TypeAt(ts, p) == w.typ
  {
    assert TokenIs(ts[p + 0], [w][0]);
  }

  // ---------------------------------------------------------------- numbers

  lemma {:induction false} DecimalReads(n: nat)
    ensures AllDigits(Decimal(n)) && DigitsValue(Decimal(n)) == n
  {
    if n >= 10 {
      DecimalReads(n / 10);
      var s := Decimal(n);
      assert s[..|s| - 1] == Decimal(n / 10);
    } else {
      assert Decimal(n)[..0] == "";
    }
  }

  // ---------------------------------------------------------------- expressions

  lemma {:induction false} LeafReads(ts: seq<Token>, p: nat, e: Expr)
    requires Printable(e) && !e.Binary? && WordsAt(ts, p, ExprWords(e))
    ensures PrimaryAt(ts, p) == Some((e, p + |ExprWords(e)|))
  {
    WordAt(ts, p, ExprWords(e)[0]);
    if e.Literal? && e.value.IntValue? {
      DecimalReads(e.value.n);
    }
  }

  lemma {:induction false} ParenthesesRead(ts: seq<Token>, p: nat, e: Expr, q: nat)
    requires TypeAt(ts, p) == Sym(LPAREN) && ExprAt(ts, p + 1) == Some((e, q)) && TypeAt(ts, q) == Sym(RPAREN)
    ensures PrimaryAt(ts, p) == Some((e, q + 1))
  {
  }

  /** The words between a pair of parentheses. */
  lemma {:induction false} BetweenParentheses(ts: seq<Token>, p: nat, ws: seq<Word>)
    requires WordsAt(ts, p, [SymbolWord(LPAREN)] + ws + [SymbolWord(RPAREN)])
    ensures TypeAt(ts, p) == Sym(LPAREN) && WordsAt(ts, p + 1, ws) && TypeAt(ts, p + 1 + |ws|) == Sym(RPAREN)
  {
    WordsSplit3(ts, p, [SymbolWord(LPAREN)], ws, [SymbolWord(RPAREN)]);
    WordAt(ts, p, SymbolWord(LPAREN));
    WordAt(ts, p + 1 + |ws|, SymbolWord(RPAREN));
  }

  /** A printed expression is read as one primary. */
  lemma {:induction false} PrimaryReads(ts: seq<Token>, p: nat, e: Expr)
    requires Printable(e) && WordsAt(ts, p, ExprWords(e))
    ensures PrimaryAt(ts, p) == Some((e, p + |ExprWords(e)|))
    decreases e, 3
  {
    if e.Binary? {
      var bare := BareWords(e);
      BetweenParentheses(ts, p, bare);
      BareReads(ts, p + 1, e);
      ParenthesesRead(ts, p, e, p + 1 + |bare|);
    } else {
      LeafReads(ts, p, e);
    }
  }

  /** Neither a comparison nor a connective follows. */
  predicate Ends(ts: seq<Token>, p: nat) {
    ComparisonOf(TypeAt(ts, p)).None? && ConnectiveOf(TypeAt(ts, p)).None?
  }

  predicate IsConnective(op: Operator) {
    op == OpAnd || op == OpOr
  }

  lemma {:induction false} OperatorKinds(op: Operator)
    ensures IsConnective(op) ==> ConnectiveOf(OperatorType(op)) == Some(op) && ComparisonOf(OperatorType(op)).None?
    ensures !IsConnective(op) ==> ComparisonOf(OperatorType(op)) == Some(op)
  {
  }

  lemma {:induction false} CompareOne(ts: seq<Token>, p: nat, left: Expr, q: nat, op: Operator, right: Expr, end: nat)
    requires PrimaryAt(ts, p) == Some((left, q)) && ComparisonOf(TypeAt(ts, q)) == Some(op)
    requires PrimaryAt(ts, q + 1) == Some((right, end))
    ensures CompareAt(ts, p) == Some((Binary(left, op, right), end))
  {
  }

  lemma {:induction false} CompareNone(ts: seq<Token>, p: nat, left: Expr, q: nat)
    requires PrimaryAt(ts, p) == Some((left, q)) && ComparisonOf(TypeAt(ts, q)).None?
    ensures CompareAt(ts, p) == Some((left, q))
  {
  }

  lemma {:induction false} JoinOne(ts: seq<Token>, left: Expr, p: nat, op: Operator, right: Expr, q: nat)
    requires p < |ts| && ConnectiveOf(TypeAt(ts, p)) == Some(op)
    requires CompareAt(ts, p + 1) == Some((right, q))
    ensures q <= |ts| && JoinedAt(ts, left, p) == JoinedAt(ts, Binary(left, op, right), q)
  {
  }

  lemma {:induction false} JoinNone(ts: seq<Token>, left: Expr, p: nat)
    requires p <= |ts| && ConnectiveOf(TypeAt(ts, p)).None?
    ensures JoinedAt(ts, left, p) == Some((left, p))
  {
  }

  /** The two operands and the operator of a binary expression, where they stand. */
  lemma {:induction false} OperandsRead(ts: seq<Token>, p: nat, e: Expr)
    requires Printable(e) && e.Binary? && WordsAt(ts, p, BareWords(e))
    ensures var q := p + |ExprWords(e.left)|;
            && PrimaryAt(ts, p) == Some((e.left, q))
            && TypeAt(ts, q) == OperatorType(e.op)
            && PrimaryAt(ts, q + 1) == Some((e.right, p + |BareWords(e)|))
    decreases e, 0
  {
    var l := ExprWords(e.left);
    WordsSplit3(ts, p, l, [OperatorWord(e.op)], ExprWords(e.right));
    WordAt(ts, p + |l|, OperatorWord(e.op));
    PrimaryReads(ts, p, e.left);
    PrimaryReads(ts, p + |l| + 1, e.right);
  }

  /** A bare comparison is read as itself, whatever follows. */
  lemma {:induction false} ComparisonReads(ts: seq<Token>, p: nat, e: Expr)
    requires Printable(e) && e.Binary? && !IsConnective(e.op) && WordsAt(ts, p, BareWords(e))
    ensures CompareAt(ts, p) == Some((e, p + |BareWords(e)|))
    decreases e, 1
  {
    OperandsRead(ts, p, e);
    OperatorKinds(e.op);
    CompareOne(ts, p, e.left, p + |ExprWords(e.left)|, e.op, e.right, p + |BareWords(e)|);
  }

  /** A bare `AND` or `OR` of two operands is joined at one level. */
  lemma {:induction false} ConnectiveReads(ts: seq<Token>, p: nat, e: Expr)
    requires Printable(e) && e.Binary? && IsConnective(e.op) && WordsAt(ts, p, BareWords(e))
    requires Ends(ts, p + |BareWords(e)|)
    ensures ExprAt(ts, p) == Some((e, p + |BareWords(e)|))
    decreases e, 1
  {
    var q, end := p + |ExprWords(e.left)|, p + |BareWords(e)|;
    OperandsRead(ts, p, e);
    OperatorKinds(e.op);
    CompareNone(ts, p, e.left, q);
    CompareNone(ts, q + 1, e.right, end);
    JoinOne(ts, e.left, q, e.op, e.right, end);
    JoinNone(ts, e, end);
  }

  /** A bare binary expression with nothing to continue it is read as itself. */
  lemma {:induction false} BareReads(ts: seq<Token>, p: nat, e: Expr)
    requires Printable(e) && e.Binary? && WordsAt(ts, p, BareWords(e)) && Ends(ts, p + |BareWords(e)|)
    ensures ExprAt(ts, p) == Some((e, p + |BareWords(e)|))
    decreases e, 2
  {
    if IsConnective(e.op) {
      ConnectiveReads(ts, p, e);
    } else {
      ComparisonReads(ts, p, e);
      JoinNone(ts, e, p + |BareWords(e)|);
    }
  }

  lemma {:induction false} ExprReads(ts: seq<Token>, p: nat, e: Expr)
    requires Printable(e) && WordsAt(ts, p, ExprWords(e)) && Ends(ts, p + |ExprWords(e)|)
    ensures ExprAt(ts, p) == Some((e, p + |ExprWords(e)|))
  {
    PrimaryReads(ts, p, e);
    CompareNone(ts, p, e, p + |ExprWords(e)|);
    JoinNone(ts, e, p + |ExprWords(e)|);
  }

  /** The number of operators of an expression. */
  function Operators(e: Expr): nat {
    if e.Binary? then 1 + Operators(e.left) + Operators(e.right) else 0
  }

  lemma {:induction false} JoinedGrows(ts: seq<Token>, left: Expr, p: nat)
    requires p <= |ts|
    ensures JoinedAt(ts, left, p).Some? ==> Operators(JoinedAt(ts, left, p).value.0) >= Operators(left)
    ensures JoinedAt(ts, left, p).Some? && ConnectiveOf(TypeAt(ts, p)).Some? ==>
              Operators(JoinedAt(ts, left, p).value.0) > Operators(left)
    decreases |ts| - p
  {
    var op := ConnectiveOf(TypeAt(ts, p));
    if op.Some? {
      var right := CompareAt(ts, p + 1);
      if right.Some? {
        JoinedGrows(ts, Binary(left, op.value, right.value.0), right.value.1);
      }
    }
  }

  /** An operator behind an expression is read with it, into another expression. */
  lemma {:induction false} ExprContinues(ts: seq<Token>, p: nat, e: Expr, q: nat)
    requires PrimaryAt(ts, p) == Some((e, q)) && !Ends(ts, q)
    ensures ExprAt(ts, p).Some? ==> ExprAt(ts, p).value.0 != e
  {
    var left := CompareAt(ts, p);
    if left.Some? {
      assert Operators(left.value.0) > Operators(e) || left.value == (e, q);
      JoinedGrows(ts, left.value.0, left.value.1);
    }
  }

  /** A printed expression is read as itself exactly when no operator follows. */
  lemma {:induction false} ExprReadsExactly(ts: seq<Token>, p: nat, e: Expr)
    requires Printable(e) && WordsAt(ts, p, ExprWords(e))
    ensures ExprAt(ts, p).Some? && ExprAt(ts, p).value.0 == e <==> Ends(ts, p + |ExprWords(e)|)
  {
    if Ends(ts, p + |ExprWords(e)|) {
      ExprReads(ts, p, e);
    } else {
      PrimaryReads(ts, p, e);
      ExprContinues(ts, p, e, p + |ExprWords(e)|);
    }
  }

  // ---------------------------------------------------------------- chains

  /** One comparison of a chain, written without parentheses of its own. */
  function ItemWords(e: Expr): seq<Word>
    requires Printable(e)
  {
    if e.Binary? && !IsConnective(e.op) then BareWords(e) else ExprWords(e)
  }

  datatype Link = Link(op: Operator, item: Expr)

  predicate LinksPrintable(links: seq<Link>) {
    forall i :: 0 <= i < |links| ==> IsConnective(links[i].op) && Printable(links[i].item)
  }

  function LinkWords(link: Link): seq<Word>
    requires Printable(link.item)
  {
    [OperatorWord(link.op)] + ItemWords(link.item)
  }

  function LinksWords(links: seq<Link>): seq<Word>
    requires LinksPrintable(links)
  {
    if links == [] then [] else LinkWords(links[0]) + LinksWords(links[1..])
  }

  /** The chain grouped from the left, `AND` and `OR` alike. */
  function LeftGrouped(first: Expr, links: seq<Link>): Expr
    decreases |links|
  {
    if links == [] then first else LeftGrouped(Binary(first, links[0].op, links[0].item), links[1..])
  }

  lemma {:induction false} ItemReads(ts: seq<Token>, p: nat, e: Expr)
    requires Printable(e) && WordsAt(ts, p, ItemWords(e)) && ComparisonOf(TypeAt(ts, p + |ItemWords(e)|)).None?
    ensures CompareAt(ts, p) == Some((e, p + |ItemWords(e)|))
  {
    if e.Binary? && !IsConnective(e.op) {
      ComparisonReads(ts, p, e);
    } else {
      PrimaryReads(ts, p, e);
      CompareNone(ts, p, e, p + |ItemWords(e)|);
    }
  }

  /** A link, where it stands, and the rest behind it. */
  lemma {:induction false} LinkStands(ts: seq<Token>, p: nat, link: Link, rest: seq<Word>)
    requires Printable(link.item) && WordsAt(ts, p, LinkWords(link) + rest)
    ensures var n := |ItemWords(link.item)|;
            && p < |ts| && TypeAt(ts, p) == OperatorType(link.op)
            && WordsAt(ts, p + 1, ItemWords(link.item)) && WordsAt(ts, p + 1 + n, rest)
            && |LinkWords(link) + rest| == 1 + n + |rest|
  {
    WordsSplit(ts, p, LinkWords(link), rest);
    WordsSplit(ts, p, [OperatorWord(link.op)], ItemWords(link.item));
    WordAt(ts, p, OperatorWord(link.op));
  }

  /** The first link is joined to what is on its left. */
  lemma {:induction false} LinkReads(ts: seq<Token>, left: Expr, link: Link, p: nat, q: nat)
    requires IsConnective(link.op) && Printable(link.item) && q == p + 1 + |ItemWords(link.item)|
    requires p < |ts| && TypeAt(ts, p) == OperatorType(link.op) && WordsAt(ts, p + 1, ItemWords(link.item))
    requires ComparisonOf(TypeAt(ts, q)).None?
    ensures q <= |ts| && JoinedAt(ts, left, p) == JoinedAt(ts, Binary(left, link.op, link.item), q)
    ensures ComparisonOf(TypeAt(ts, p)).None?
  {
    ItemReads(ts, p + 1, link.item);
    OperatorKinds(link.op);
    JoinOne(ts, left, p, link.op, link.item, q);
  }

  lemma {:induction false} FirstLinkReads(ts: seq<Token>, left: Expr, links: seq<Link>, p: nat) returns (q: nat)
    requires links != [] && LinksPrintable(links) && WordsAt(ts, p, LinksWords(links))
    ensures WordsAt(ts, q, LinksWords(links[1..])) && q + |LinksWords(links[1..])| == p + |LinksWords(links)|
    ensures p < |ts| && q <= |ts| && ComparisonOf(TypeAt(ts, p)).None?
    ensures ComparisonOf(TypeAt(ts, q)).None? ==>
              JoinedAt(ts, left, p) == JoinedAt(ts, Binary(left, links[0].op, links[0].item), q)
  {
    var link := links[0];
    LinkStands(ts, p, link, LinksWords(links[1..]));
    OperatorKinds(link.op);
    q := p + 1 + |ItemWords(link.item)|;
    if ComparisonOf(TypeAt(ts, q)).None? {
      LinkReads(ts, left, link, p, q);
    }
  }

  lemma {:induction false} LinksRead(ts: seq<Token>, left: Expr, links: seq<Link>, p: nat)
    requires LinksPrintable(links) && WordsAt(ts, p, LinksWords(links)) && Ends(ts, p + |LinksWords(links)|)
    ensures JoinedAt(ts, left, p) == Some((LeftGrouped(left, links), p + |LinksWords(links)|))
    ensures ComparisonOf(TypeAt(ts, p)).None?
    decreases |links|
  {
    if links == [] {
      JoinNone(ts, left, p);
    } else {
      var q := FirstLinkReads(ts, left, links, p);
      LinksRead(ts, Binary(left, links[0].op, links[0].item), links[1..], q);
    }
  }

  lemma {:induction false} ExprIsJoined(ts: seq<Token>, p: nat, first: Expr, q: nat)
    requires CompareAt(ts, p) == Some((first, q))
    ensures ExprAt(ts, p) == JoinedAt(ts, first, q)
  {
  }

  /** An unparenthesised chain of `AND` and `OR` groups to the left at one precedence level. */
  lemma {:induction false} ChainGroupsLeft(ts: seq<Token>, p: nat, q: nat, first: Expr, links: seq<Link>)
    requires Printable(first) && LinksPrintable(links)
    requires q == p + |ItemWords(first)| && WordsAt(ts, p, ItemWords(first))
    requires WordsAt(ts, q, LinksWords(links)) && Ends(ts, q + |LinksWords(links)|)
    ensures ExprAt(ts, p) == Some((LeftGrouped(first, links), q + |LinksWords(links)|))
  {
    LinksRead(ts, first, links, q);
    ItemReads(ts, p, first);
    ExprIsJoined(ts, p, first, q);
  }
}
