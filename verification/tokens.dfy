/** Token kinds, tokens and raw category matches of the scanner. */
module Tokens {

  /** The thirteen lexical categories, one per scanner pattern. */
  datatype TokenKind =
    | PLACE | POINT | BUILD | RECTANGLE | TRIANGLE | CONNECT | LINE
    | ID | LPAREN | RPAREN | COMMA | NUMBER | DOT

  /** A token as handed to the parser: its kind and the matched text. */
  datatype Token = Token(kind: TokenKind, lexeme: string)

  /** A match of one category, before the offsets are dropped. */
  datatype Match = Match(kind: TokenKind, lexeme: string, offset: nat)

  /** The scanner's pattern list, in declaration (priority) order. */
  const Patterns: seq<TokenKind> :=
    [PLACE, POINT, BUILD, RECTANGLE, TRIANGLE, CONNECT, LINE,
     ID, LPAREN, RPAREN, COMMA, NUMBER, DOT]

  /** Position of a kind's pattern in the pattern list. */
  function Rank(k: TokenKind): (r: nat)
    ensures r < |Patterns| && Patterns[r] == k
  {
    match k
    case PLACE => 0
    case POINT => 1
    case BUILD => 2
    case RECTANGLE => 3
    case TRIANGLE => 4
    case CONNECT => 5
    case LINE => 6
    case ID => 7
    case LPAREN => 8
    case RPAREN => 9
    case COMMA => 10
    case NUMBER => 11
    case DOT => 12
  }

  /** Every kind appears exactly once in the pattern list. */
  lemma PatternsAreDistinct()
    ensures forall i, j :: 0 <= i < j < |Patterns| ==> Patterns[i] != Patterns[j]
    ensures forall i :: 0 <= i < |Patterns| ==> Rank(Patterns[i]) == i
  {
  }

  /** Drops the offset of a match. */
  function ToToken(m: Match): Token {
    Token(m.kind, m.lexeme)
  }
}
