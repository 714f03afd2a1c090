/** The keyword table finds every keyword under its own spelling, in any case. */
module SqlKeywords {
  import opened SqlTokens

  /** The place of a keyword in the table. */
  function Rank(k: Keyword): nat {
    match k
    case SELECT => 0 case INSERT => 1 case UPDATE => 2 case DELETE => 3 case CREATE => 4 case TABLE => 5
    case FROM => 6 case WHERE => 7 case INTO => 8 case VALUES => 9 case SET => 10 case PRIMARY => 11
    case KEY => 12 case INT => 13 case TEXT => 14 case BOOL => 15 case NOT => 16 case NULL => 17
    case AND => 18 case OR => 19 case TRUE => 20 case FALSE => 21
  }

  /** Length and first two letters tell the keywords apart. */
  function RankOfText(s: string): nat {
    if |s| < 2 then 22
    else if |s| == 2 then 19
    else if |s| == 3 then
      if s[0] == 's' then 10 else if s[0] == 'k' then 12 else if s[0] == 'i' then 13 else if s[0] == 'n' then 16 else 18
    else if |s| == 4 then
      if s[0] == 'f' then 6 else if s[0] == 'i' then 8 else if s[0] == 'b' then 15 else if s[0] == 'n' then 17
      else if s[1] == 'e' then 14 else 20
    else if |s| == 5 then if s[0] == 't' then 5 else if s[0] == 'w' then 7 else 21
    else if |s| == 6 then
      if s[0] == 's' then 0 else if s[0] == 'i' then 1 else if s[0] == 'u' then 2 else if s[0] == 'd' then 3
      else if s[0] == 'c' then 4 else 9
    else 11
  }

  lemma {:induction false} TextsDiffer(k: Keyword)
    ensures RankOfText(KeywordText(k)) == Rank(k)
  {
  }

  lemma {:induction false} InTable(k: Keyword)
    ensures KEYWORDS[Rank(k)] == k
  {
  }

  lemma {:induction false} TableRank(i: nat)
    requires i < |KEYWORDS|
    ensures Rank(KEYWORDS[i]) == i
  {
  }

  lemma {:induction false} LookupAt(table: seq<Keyword>, i: nat, text: string)
    requires i < |table| && KeywordText(table[i]) == text
    requires forall j :: 0 <= j < i ==> KeywordText(table[j]) != text
    ensures Lookup(table, text) == Key(table[i])
    decreases i
  {
    if i > 0 {
      assert KeywordText(table[0]) != text;
      LookupAt(table[1..], i - 1, text);
    }
  }

  lemma {:induction false} LookupKeyword(k: Keyword)
    ensures Lookup(KEYWORDS, KeywordText(k)) == Key(k)
  {
    InTable(k);
    TextsDiffer(k);
    forall j | 0 <= j < Rank(k) ensures KeywordText(KEYWORDS[j]) != KeywordText(k) {
      TextsDiffer(KEYWORDS[j]);
      TableRank(j);
    }
    LookupAt(KEYWORDS, Rank(k), KeywordText(k));
  }

  lemma {:induction false} KeywordLetters(k: Keyword)
    ensures KeywordText(k) != "" && forall i :: 0 <= i < |KeywordText(k)| ==> 'a' <= KeywordText(k)[i] <= 'z'
  {
  }

  /** A word that differs from a keyword at most in case is that keyword. */
  lemma {:induction false} AnyCaseIsKeyword(k: Keyword, word: string)
    requires ToLower(word) == KeywordText(k)
    ensures WordType(word) == Key(k)
    ensures word != "" && forall i :: 0 <= i < |word| ==> IsLetter(word[i])
    ensures ToUpper(word) == ToUpper(KeywordText(k))
  {
    LookupKeyword(k);
    KeywordLetters(k);
    forall i | 0 <= i < |word| ensures IsLetter(word[i]) && UpperChar(word[i]) == UpperChar(KeywordText(k)[i]) {
      assert ToLower(word)[i] == LowerChar(word[i]);
      assert 'a' <= KeywordText(k)[i] <= 'z';
    }
    assert ToUpper(word) == ToUpper(KeywordText(k));
  }

  lemma {:induction false} LookupText(table: seq<Keyword>, text: string, k: Keyword)
    requires Lookup(table, text) == Key(k)
    ensures text == KeywordText(k)
    decreases |table|
  {
    if KeywordText(table[0]) != text {
      LookupText(table[1..], text, k);
    }
  }

  /** A word of a keyword type is that keyword up to case. */
  lemma {:induction false} KeywordTypeText(word: string, k: Keyword)
    requires WordType(word) == Key(k)
    ensures ToLower(word) == KeywordText(k) && ToUpper(word) == ToUpper(KeywordText(k))
  {
    LookupText(KEYWORDS, ToLower(word), k);
    AnyCaseIsKeyword(k, word);
  }

  // ---------------------------------------------------------------- spellings

  /** The table finds a keyword under its lower-case spelling; `AnyCaseIsKeyword` adds the others. */
  lemma {:induction false} LowerIsKeyword(k: Keyword)
    ensures WordType(KeywordText(k)) == Key(k)
  {
    KeywordLetters(k);
    assert ToLower(KeywordText(k)) == KeywordText(k);
    LookupKeyword(k);
  }

  /** The ASCII codes of letters, digits and white space; upper-case letters are 32 below lower-case ones. */
  lemma {:induction false} CharacterCodes(c: char)
    ensures IsDigit(c) <==> 48 <= c as int <= 57
    ensures IsLetter(c) <==> 97 <= c as int <= 122 || 65 <= c as int <= 90 || c as int == 95
    ensures IsSpace(c) <==> c as int in {32, 9, 10, 13}
    ensures LowerChar(c) as int == if 65 <= c as int <= 90 then c as int + 32 else c as int
  {
  }
}
