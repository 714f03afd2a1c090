/**
 Tokens of the SQL dialect. A `char` of a statement text stands for one byte.
 */
module SqlTokens {

  datatype Keyword =
    | SELECT | INSERT | UPDATE | DELETE | CREATE | TABLE | FROM | WHERE | INTO | VALUES | SET
    | PRIMARY | KEY | INT | TEXT | BOOL | NOT | NULL | AND | OR | TRUE | FALSE

  datatype Symbol = LPAREN | RPAREN | COMMA | SEMICOLON | EQ | NEQ | LT | GT | LTE | GTE | STAR

  datatype TokenType = Key(keyword: Keyword) | Sym(symbol: Symbol) | IDENT | NUMBER | STRING | EOF

  datatype Token = Token(typ: TokenType, literal: string, pos: nat)

  /** The lower-case spelling of each keyword. */
  function KeywordText(k: Keyword): string {
    match k
    case SELECT => "select" case INSERT => "insert" case UPDATE => "update" case DELETE => "delete"
    case CREATE => "create" case TABLE => "table" case FROM => "from" case WHERE => "where"
    case INTO => "into" case VALUES => "values" case SET => "set" case PRIMARY => "primary"
    case KEY => "key" case INT => "int" case TEXT => "text" case BOOL => "bool" case NOT => "not"
    case NULL => "null" case AND => "and" case OR => "or" case TRUE => "true" case FALSE => "false"
  }

  function SymbolText(s: Symbol): string {
    match s
    case LPAREN => "(" case RPAREN => ")" case COMMA => "," case SEMICOLON => ";" case STAR => "*"
    case EQ => "=" case NEQ => "!=" case LT => "<" case LTE => "<=" case GT => ">" case GTE => ">="
  }

  const KEYWORDS: seq<Keyword> := [
    SELECT, INSERT, UPDATE, DELETE, CREATE, TABLE, FROM, WHERE, INTO, VALUES, SET,
    PRIMARY, KEY, INT, TEXT, BOOL, NOT, NULL, AND, OR, TRUE, FALSE]

  /** The type of a lower-case word: the keyword of `table` it spells, or an identifier. */
  function Lookup(table: seq<Keyword>, text: string): (t: TokenType)
    ensures t.Key? || t.IDENT?
  {
    if table == [] then IDENT
    else if KeywordText(table[0]) == text then Key(table[0])
    else Lookup(table[1..], text)
  }

  predicate IsLetter(c: char) {
    'a' <= c <= 'z' || 'A' <= c <= 'Z' || c == '_'
  }

  predicate IsDigit(c: char) {
    '0' <= c <= '9'
  }

  predicate IsLetterOrDigit(c: char) {
    IsLetter(c) || IsDigit(c)
  }

  predicate IsSpace(c: char) {
    c == ' ' || c == '\t' || c == '\n' || c == '\r'
  }

  function LowerChar(c: char): char {
    if 'A' <= c <= 'Z' then (c as int + 32) as char else c
  }

  function UpperChar(c: char): char {
    if 'a' <= c <= 'z' then (c as int - 32) as char else c
  }

  function ToLower(s: string): string {
    seq(|s|, i requires 0 <= i < |s| => LowerChar(s[i]))
  }

  function ToUpper(s: string): string {
    seq(|s|, i requires 0 <= i < |s| => UpperChar(s[i]))
  }

  /** The type of a word: a keyword in any case, or an identifier. */
  function WordType(word: string): TokenType {
    Lookup(KEYWORDS, ToLower(word))
  }

  /** A string literal as written: quotes around it, inner quotes doubled. */
  function Quoted(s: string): string {
    "'" + Doubled(s) + "'"
  }

  function Doubled(s: string): string {
    if s == "" then "" else (if s[0] == '\'' then "''" else [s[0]]) + Doubled(s[1..])
  }

  /** The text a token was read from. */
  function Spelling(t: TokenType, literal: string): string {
    if t == STRING then Quoted(literal) else literal
  }
}
