/** The character classes and letter tables, against alphabets written out. */
module Alphabets {
  import opened Characters
  import opened HostGrammar

  const SMALL := "abcdefghijklmnopqrstuvwxyz"
  const CAPITAL := "ABCDEFGHIJKLMNOPQRSTUVWXYZ"
  const DIGITS := "0123456789"
  const SMALL_HEX := "0123456789abcdef"
  const CAPITAL_HEX := "0123456789ABCDEF"

  const USERINFO := SMALL + CAPITAL + DIGITS + "-_.!~*'()%;:&=+$,"
  const HOST := SMALL + CAPITAL + DIGITS + ".-"
  const ADDRESS := SMALL_HEX + CAPITAL_HEX + ":."
  const ZONE := SMALL + CAPITAL + DIGITS + "%.-_~"
  const TOKEN := SMALL + CAPITAL + DIGITS + "!#$%&'*+-.^_`|~"
  const URL := SMALL + CAPITAL + DIGITS + "!\"$%&'()*+,-./:;<=>@[\\]^_`{|}~"

  lemma LetterClasses(ch: char)
    ensures ch in SMALL <==> 'a' <= ch <= 'z'
    ensures ch in CAPITAL <==> 'A' <= ch <= 'Z'
    ensures ch in DIGITS <==> '0' <= ch <= '9'
    ensures ch in SMALL_HEX <==> '0' <= ch <= '9' || 'a' <= ch <= 'f'
    ensures ch in CAPITAL_HEX <==> '0' <= ch <= '9' || 'A' <= ch <= 'F'
  {
    InSmall(ch);
    InCapital(ch);
    InDigits(ch);
    InHex(ch);
    hide SMALL, CAPITAL, DIGITS, SMALL_HEX, CAPITAL_HEX;
  }

  lemma InSmall(ch: char)
    ensures ch in SMALL <==> 'a' <= ch <= 'z'
  {
    if 'a' <= ch <= 'z' { assert SMALL[ch as int - 'a' as int] == ch; }
  }

  lemma InCapital(ch: char)
    ensures ch in CAPITAL <==> 'A' <= ch <= 'Z'
  {
    if 'A' <= ch <= 'Z' { assert CAPITAL[ch as int - 'A' as int] == ch; }
  }

  lemma InDigits(ch: char)
    ensures ch in DIGITS <==> '0' <= ch <= '9'
  {
    if '0' <= ch <= '9' { assert DIGITS[ch as int - '0' as int] == ch; }
  }

  lemma InHex(ch: char)
    ensures ch in SMALL_HEX <==> '0' <= ch <= '9' || 'a' <= ch <= 'f'
    ensures ch in CAPITAL_HEX <==> '0' <= ch <= '9' || 'A' <= ch <= 'F'
  {
  }

  /** The classes. */
  lemma Classes(ch: char)
    ensures IsAlpha(ch) <==> ch in SMALL + CAPITAL
    ensures IsNum(ch) <==> ch in DIGITS
    ensures IsHex(ch) <==> ch in SMALL_HEX + CAPITAL_HEX
    ensures IsUserinfoChar(ch) <==> ch in USERINFO
    ensures IsHostChar(ch) <==> ch in HOST
    ensures IsAddressChar(ch) <==> ch in ADDRESS
    ensures IsZoneChar(ch) <==> ch in ZONE
    ensures IsToken(ch) <==> ch in TOKEN
    ensures IsUrlChar(ch) <==> ch in URL
  {
    LetterClasses(ch);
    UserinfoMarks(ch);
    OtherMarks(ch);
    UrlMarks(ch);
    hide SMALL, CAPITAL, DIGITS, SMALL_HEX, CAPITAL_HEX;
  }

  lemma UserinfoMarks(ch: char)
    ensures ch in "-_.!~*'()%;:&=+$," <==> IsMark(ch) || ch == '%' || ch == ';' || ch == ':' || ch == '&' || ch == '=' || ch == '+' || ch == '$' || ch == ','
  {
  }

  lemma OtherMarks(ch: char)
    ensures ch in ".-" <==> ch == '.' || ch == '-'
    ensures ch in ":." <==> ch == ':' || ch == '.'
    ensures ch in "%.-_~" <==> ch == '%' || ch == '.' || ch == '-' || ch == '_' || ch == '~'
    ensures ch in "!#$%&'*+-.^_`|~" <==>
      ch == '!' || '#' <= ch <= '\'' || ch == '*' || ch == '+' || ch == '-' || ch == '.' || ch == '^' || ch == '_' || ch == '`' || ch == '|' || ch == '~'
  {
  }

  lemma UrlMarks(ch: char)
    ensures ch in "!\"$%&'()*+,-./:;<=>@[\\]^_`{|}~" <==>
      '!' <= ch <= '~' && ch != '#' && ch != '?' && !('0' <= ch <= '9') && !('a' <= ch <= 'z') && !('A' <= ch <= 'Z')
  {
  }

  /** A header value may hold any byte but NUL to BS, VT, FF, SO to US, and DEL. */
  lemma HeaderBytes(ch: char)
    ensures IsHeaderChar(ch) <==> ch as int !in {0, 1, 2, 3, 4, 5, 6, 7, 8, 11, 12, 14, 15, 16, 17, 18, 19, 20, 21, 22, 23, 24, 25,
                                                 26, 27, 28, 29, 30, 31, 127}
    ensures IsEol(ch) <==> ch as int == 13 || ch as int == 10
    ensures CR as int == 13 && LF as int == 10 && SP as int == 32 && HT as int == 9
  {
  }

  /** A letter of either case, and its small form; every other byte stands for itself. */
  lemma Letters(i: nat)
    requires i < 26
    ensures TokenLower(CAPITAL[i]) == Lower(CAPITAL[i]) == SMALL[i] == TokenLower(SMALL[i]) == Lower(SMALL[i])
  {
  }

  lemma NoLetter(ch: char)
    requires ch !in CAPITAL
    ensures TokenLower(ch) == ch
  {
    InCapital(ch);
  }

  /** LOWER sets the bit of value 32. */
  lemma LowerBit(ch: char)
    requires ch < '\U{100}'
    ensures Lower(ch) as int == if ch as int / 32 % 2 == 1 then ch as int else ch as int + 32
  {
  }

  /** Digits denote their place in the alphabet. */
  lemma DigitValues(i: nat)
    ensures i < 10 ==> Digit(DIGITS[i]) == i
    ensures i < 16 ==> HexDigit(SMALL_HEX[i]) == i && HexDigit(CAPITAL_HEX[i]) == i
  {
  }

  /** The letters c and d are the same, the second one small. */
  predicate SameLetter(c: char, d: char) {
    c == d || exists i | 0 <= i < 26 :: CAPITAL[i] == c && SMALL[i] == d
  }

  /** s is the word w, which is written in small letters, in any case. */
  predicate IsSpelled(s: string, w: string) {
    |s| == |w| && forall i | 0 <= i < |s| :: SameLetter(s[i], w[i])
  }

  lemma SameLower(c: char, d: char)
    requires d !in CAPITAL
    ensures SameLetter(c, d) <==> TokenLower(c) == d
  {
    InCapital(c);
    assert |CAPITAL| == 26 == |SMALL|;
    hide CAPITAL, SMALL, TokenLower;
    if c !in CAPITAL { NoLetter(c); }
    if SameLetter(c, d) && c != d {
      var i: nat :| i < 26 && CAPITAL[i] == c && SMALL[i] == d;
      Letters(i);
    }
    if TokenLower(c) == d && c != d {
      var i: nat := c as int - 'A' as int;
      Capitals(i);
      Letters(i);
    }
  }

  lemma Capitals(i: nat)
    requires i < 26
    ensures CAPITAL[i] == ('A' as int + i) as char
  {
  }
}
