/** The character classes of the parser. A byte is a `char` with code below 256;
    every class below treats codes above 127 alike, so no contract needs the bound. */
module Characters {

  const CR := '\r'
  const LF := '\n'
  const SP := ' '
  const HT := '\t'

  /** LOWER: sets bit 0x20, of letters and of every other byte alike. */
  function Lower(c: char): char {
    if c < ' ' || '@' <= c <= '_' || '\U{80}' <= c <= '\U{9F}' || '\U{C0}' <= c <= '\U{DF}' then
      (c as int + 32) as char
    else
      c
  }

  predicate IsAlpha(c: char) {
    'a' <= c <= 'z' || 'A' <= c <= 'Z'
  }

  predicate IsNum(c: char) {
    '0' <= c <= '9'
  }

  predicate IsAlphaNum(c: char) {
    IsAlpha(c) || IsNum(c)
  }

  predicate IsHex(c: char) {
    IsNum(c) || 'a' <= c <= 'f' || 'A' <= c <= 'F'
  }

  predicate IsMark(c: char) {
    c == '-' || c == '_' || c == '.' || c == '!' || c == '~' || c == '*' || c == '\'' || c == '(' || c == ')'
  }

  predicate IsUserinfoChar(c: char) {
    IsAlphaNum(c) || IsMark(c) || c == '%' || c == ';' || c == ':' || c == '&' || c == '=' || c == '+' || c == '$' || c == ','
  }

  predicate IsHostChar(c: char) {
    IsAlphaNum(c) || c == '.' || c == '-'
  }

  predicate IsUrlChar(c: char) {
    '!' <= c <= '~' && c != '#' && c != '?'
  }

  predicate IsToken(c: char) {
    IsAlphaNum(c) || c == '!' || '#' <= c <= '\'' || c == '*' || c == '+' || c == '-' || c == '.' || c == '^' || c == '_' || c == '`' || c == '|' || c == '~'
  }

  /** The tokens table: the lower-case form of a token character; only used on tokens. */
  function TokenLower(c: char): char {
    if 'A' <= c <= 'Z' then (c as int + 32) as char else c
  }

  predicate IsHeaderChar(c: char) {
    c == CR || c == LF || c == HT || (c > '\U{1F}' && c != '\U{7F}')
  }

  predicate IsEol(c: char) {
    c == CR || c == LF
  }

  function Digit(c: char): (d: nat)
    requires IsNum(c)
    ensures d <= 9
  {
    c as int - '0' as int
  }

  /** The unhex table: the value of a hexadecimal digit. */
  function HexDigit(c: char): (d: nat)
    requires IsHex(c)
    ensures d <= 15
  {
    if IsNum(c) then c as int - '0' as int
    else if 'a' <= c <= 'f' then c as int - 'a' as int + 10
    else c as int - 'A' as int + 10
  }
}
