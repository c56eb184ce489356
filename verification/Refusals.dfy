/** Which bytes the parser refuses, where, and with which error. */
module Refusals {
  import opened Characters
  import opened Alphabets
  import opened Http
  import opened UrlChar
  import opened Machine

  const LETTERS := SMALL + CAPITAL
  const HEXES := SMALL_HEX + CAPITAL_HEX
  const SERVER := USERINFO + "[]/?"

  /** A byte is refused unless it may stand here. */
  function Unless(allowed: bool, e: Errno): Option<Errno> {
    if allowed then None else Some(e)
  }

  /** The states that await some bytes and no others, and the error for the others. */
  function Awaits(s: State, connect: bool): Option<(string, Errno)> {
    match s
    case Dead => Some(("\r\n", CLOSED_CONNECTION))
    case Start(x) => AwaitsStart(x)
    case StatusLine(x) => AwaitsStatus(x)
    case Target(x) => AwaitsUrl(if x.ReqSpacesBeforeUrl? && connect then ReqServerStart else x, x.ReqSpacesBeforeUrl?)
    case Version(x) => AwaitsVersion(x)
    case Fields(x) =>
      (match x
       case InField => Some((TOKEN + ":", INVALID_HEADER_TOKEN))
       case DiscardWsAlmostDone => Some(("\n", STRICT))
       case ValueAlmostDone => Some(("\n", LF_EXPECTED))
       case _ => None)
    case Ending(_) => Some(("\n", STRICT))
    case Chunk(x) => AwaitsChunk(x)
    case Content(_) => None
  }

  function AwaitsStart(s: StartState): Option<(string, Errno)> {
    match s
    case StartReqOrRes => Some(("\r\nABCDGHLMNOPRSTU", INVALID_METHOD))
    case ResOrRespH => Some(("TE", INVALID_CONSTANT))
    case StartRes => Some(("\r\nH", INVALID_CONSTANT))
    case StartReq => Some(("\r\nABCDGHLMNOPRSTU", INVALID_METHOD))
    case ReqMethod => None
  }

  function AwaitsStatus(s: StatusLineState): Option<(string, Errno)> {
    match s
    case ResH => Some(("T", STRICT))
    case ResHT => Some(("T", STRICT))
    case ResHTT => Some(("P", STRICT))
    case ResHTTP => Some(("/", STRICT))
    case ResHttpMajor => Some((DIGITS, INVALID_VERSION))
    case ResHttpDot => Some((".", INVALID_VERSION))
    case ResHttpMinor => Some((DIGITS, INVALID_VERSION))
    case ResHttpEnd => Some((" ", INVALID_VERSION))
    case ResFirstStatusCode => Some((DIGITS + " ", INVALID_STATUS))
    case ResStatusCode => None
    case ResStatusStart => None
    case ResStatus => None
    case ResLineAlmostDone => Some(("\n", STRICT))
  }

  function AwaitsUrl(s: UrlState, gap: bool): Option<(string, Errno)> {
    match s
    case ReqSpacesBeforeUrl => Some((LETTERS + "/* ", INVALID_URL))
    case ReqSchema => Some((LETTERS + ":", INVALID_URL))
    case ReqSchemaSlash => Some(("/", INVALID_URL))
    case ReqSchemaSlashSlash => Some(("/", INVALID_URL))
    case ReqServerStart => Some((if gap then SERVER + "@ " else SERVER + "@", INVALID_URL))
    case ReqServer => Some((SERVER + "@ \r\n", INVALID_URL))
    case ReqServerWithAt => Some((SERVER + " \r\n", INVALID_URL))
    case _ => Some((URL + "?# \r\n", INVALID_URL))
  }

  function AwaitsVersion(s: VersionState): Option<(string, Errno)> {
    match s
    case ReqHttpStart => Some(("H ", INVALID_CONSTANT))
    case ReqHttpH => Some(("T", STRICT))
    case ReqHttpHT => Some(("T", STRICT))
    case ReqHttpHTT => Some(("P", STRICT))
    case ReqHttpHTTP => Some(("/", STRICT))
    case ReqHttpMajor => Some((DIGITS, INVALID_VERSION))
    case ReqHttpDot => Some((".", INVALID_VERSION))
    case ReqHttpMinor => Some((DIGITS, INVALID_VERSION))
    case ReqHttpEnd => Some(("\r\n", INVALID_VERSION))
    case ReqLineAlmostDone => Some(("\n", LF_EXPECTED))
  }

  function AwaitsChunk(s: ChunkState): Option<(string, Errno)> {
    match s
    case ChunkSizeStart => Some((HEXES, INVALID_CHUNK_SIZE))
    case ChunkSize => Some((HEXES + "\r; ", INVALID_CHUNK_SIZE))
    case ChunkSizeAlmostDone => Some(("\n", STRICT))
    case ChunkDataAlmostDone => Some(("\r", STRICT))
    case ChunkDataDone => Some(("\n", STRICT))
    case _ => None
  }

  /** The end of a head of a chunked message with a Content-Length. */
  predicate Contradicts(ps: Parser) {
    !ps.flags.trailing && ps.flags.contentLength && (ps.flags.chunked || (ps.state.Fields? && ps.hstate.TransferEncodingChunked?))
  }

  /** The first byte of a header line, or the end of the head. */
  function AtLineStart(ps: Parser, ch: char): Option<Errno> {
    if ch == '\n' && Contradicts(ps) then Some(UNEXPECTED_CONTENT_LENGTH) else Unless(ch in TOKEN + "\r\n", INVALID_HEADER_TOKEN)
  }

  function AtFirstValueByte(ps: Parser, ch: char): Option<Errno> {
    if !ps.hstate.ContentLength? then None
    else if ch !in DIGITS then Some(INVALID_CONTENT_LENGTH)
    else Unless(!ps.flags.contentLength, UNEXPECTED_CONTENT_LENGTH)
  }

  function AtValueByte(ps: Parser, skip: bool, ch: char): Option<Errno> {
    if ch in "\r\n" then None
    else if !ps.lenient && !skip && ((ch < ' ' && ch != '\t') || ch as int == 127) then Some(INVALID_HEADER_TOKEN)
    else if ps.hstate.ContentLength? || ps.hstate.ContentLengthNum? then
      Unless(ch == ' ' || (ch in DIGITS && ps.length <= 1844674407370955160), INVALID_CONTENT_LENGTH)
    else if ps.hstate.ContentLengthWs? then Unless(ch == ' ', INVALID_CONTENT_LENGTH)
    else None
  }

  function AtField(ps: Parser, s: FieldState, skip: bool, ch: char): Option<Errno> {
    match s
    case FieldStart => AtLineStart(ps.(hstate := General), ch)
    case ValueLws => if ch in " \t" then AtFirstValueByte(ps, ch) else AtLineStart(ps, ch)
    case DiscardLws => if ch in " \t" then None else AtLineStart(ps, ch)
    case DiscardWs => if ch in " \t\r\n" then None else AtFirstValueByte(ps, ch)
    case ValueStart => AtFirstValueByte(ps, ch)
    case InValue => AtValueByte(ps, skip, ch)
    case _ => None
  }

  /** A digit that makes a code of at most 999. */
  predicate CodeFits(n: nat, ch: char) {
    exists i | 0 <= i < 10 :: DIGITS[i] == ch && n * 10 + i <= 999
  }

  /** The error with which a byte is refused, by the state in which it comes. */
  function Refusal(ps: Parser, skip: bool, ch: char): Option<Errno> {
    var w := Awaits(ps.state, ps.verb.CONNECT?);
    if w.Some? && ch !in w.value.0 then Some(w.value.1)
    else
      match ps.state
      case StatusLine(ResStatusCode) =>
        Unless(ch in " \r\n" || CodeFits(ps.status, ch), INVALID_STATUS)
      case Fields(s) => AtField(ps, s, skip, ch)
      case Ending(HeadersAlmostDone) => Unless(!Contradicts(ps), UNEXPECTED_CONTENT_LENGTH)
      case Chunk(ChunkSize) => Unless(ch !in HEXES || ps.length <= 0xFFF_FFFF_FFFF_FFFE, INVALID_CONTENT_LENGTH)
      case _ => None
  }

  /** What one pass has to do with it: it refuses the byte, takes it, or hands it on to a state that answers alike. */
  predicate Agrees(ps: Parser, skip: bool, ch: char, r: Pass) {
    match r.control
    case Fail(e) => Refusal(ps, skip, ch) == Some(e)
    case Again => r.ps.state != Start(ReqMethod) && forall k :: Refusal(r.ps, k, ch) == Refusal(ps, skip, ch)
    case _ => Refusal(ps, skip, ch) == None
  }

  lemma Alphabetic(ch: char)
    ensures IsNum(ch) <==> ch in DIGITS
    ensures IsAlpha(ch) <==> ch in LETTERS
    ensures IsHex(ch) <==> ch in HEXES
    ensures IsToken(ch) <==> ch in TOKEN
    ensures IsUrlChar(ch) <==> ch in URL
    ensures IsUserinfoChar(ch) <==> ch in USERINFO
  {
    Classes(ch);
    hide SMALL, CAPITAL, SMALL_HEX, CAPITAL_HEX, DIGITS, TOKEN, URL, USERINFO, IsNum, IsAlpha, IsHex, IsToken, IsUrlChar, IsUserinfoChar;
  }

  lemma DeadAgrees(ps: Parser, skip: bool, ch: char)
    requires ps.state == Dead
    ensures Agrees(ps, skip, ch, if IsEol(ch) then Stay(ps) else Error(ps, CLOSED_CONNECTION))
  {
    hide AwaitsStart, AwaitsStatus, AwaitsUrl, AwaitsVersion, AwaitsChunk, AtField, CodeFits;
  }

  lemma FirstLetters(ch: char)
    ensures FirstLetter(ch).Some? <==> ch in "ABCDGHLMNOPRSTU"
  {
  }

  lemma StartAgrees(ps: Parser, skip: bool, s: StartState, ch: char)
    requires ps.state == Start(s) && !s.ReqMethod?
    ensures Agrees(ps, skip, ch, StartPass(ps, s, ch))
  {
    hide AwaitsStatus, AwaitsUrl, AwaitsVersion, AwaitsChunk, AtField, CodeFits;
    FirstLetters(ch);
    hide FirstLetter;
  }

  /** Blanks and line ends belong to no class. */
  lemma Blanks(ch: char)
    requires ch == SP || IsEol(ch) || ch == HT || ch == '\U{0C}'
    ensures !IsUrlChar(ch) && !IsUserinfoChar(ch) && !IsAlpha(ch) && !IsNum(ch) && !IsHex(ch) && !IsToken(ch) && ch != ';'
  {
  }

  lemma CodeDigit(n: nat, ch: char)
    ensures CodeFits(n, ch) <==> IsNum(ch) && n * 10 + Digit(ch) <= 999
  {
    if IsNum(ch) {
      DigitValues(Digit(ch));
      assert DIGITS[Digit(ch)] == ch;
    }
    forall i | 0 <= i < 10 ensures DIGITS[i] == ch ==> IsNum(ch) && Digit(ch) == i {
      DigitValues(i);
    }
  }

  lemma CodeAgrees(ps: Parser, skip: bool, ch: char)
    requires ps.state == StatusLine(ResStatusCode)
    ensures Agrees(ps, skip, ch, StatusLinePass(ps, ResStatusCode, ch))
  {
    hide AwaitsStart, AwaitsUrl, AwaitsVersion, AwaitsChunk, AtField, CodeFits;
    CodeDigit(ps.status, ch);
    if ch == SP || IsEol(ch) { Blanks(ch); }
    hide DIGITS, IsNum, Digit;
  }

  lemma StatusLineAgrees(ps: Parser, skip: bool, s: StatusLineState, ch: char)
    requires ps.state == StatusLine(s) && !s.ResStatusCode?
    ensures Agrees(ps, skip, ch, StatusLinePass(ps, s, ch))
  {
    hide AwaitsStart, AwaitsUrl, AwaitsVersion, AwaitsChunk, AtField, CodeFits;
    Alphabetic(ch);
    hide DIGITS, TOKEN, URL, USERINFO, LETTERS, HEXES, IsNum, IsToken, IsUrlChar, IsUserinfoChar, IsAlpha, IsHex, Digit;
  }

  /** The bytes that lead on in a URL. */
  predicate LeadsOn(s: UrlState, ch: char) {
    match s
    case ReqSpacesBeforeUrl => ch in LETTERS || ch in "/*"
    case ReqSchema => ch in LETTERS || ch == ':'
    case ReqSchemaSlash => ch == '/'
    case ReqSchemaSlashSlash => ch == '/'
    case ReqServerStart => ch in SERVER || ch == '@'
    case ReqServer => ch in SERVER || ch == '@'
    case ReqServerWithAt => ch in SERVER
    case _ => ch in URL || ch in "?#"
  }

  lemma Delimiters(ch: char)
    ensures ch in "/*" <==> ch == '/' || ch == '*'
    ensures ch in "?#" <==> ch == '?' || ch == '#'
    ensures ch in SERVER <==> ch in USERINFO || ch == '[' || ch == ']' || ch == '/' || ch == '?'
    ensures ch in SERVER ==> ch != '@'
  {
    Classes(ch);
    hide USERINFO;
    assert ch in "[]/?" <==> ch == '[' || ch == ']' || ch == '/' || ch == '?';
  }

  lemma UrlLeadsOn(s: UrlState, ch: char)
    ensures ParseUrlChar(s, ch).Some? <==> LeadsOn(s, ch)
  {
    hide DIGITS, TOKEN, URL, USERINFO, LETTERS, HEXES, SERVER, IsNum, IsToken, IsUrlChar, IsUserinfoChar, IsAlpha, IsHex;
    Alphabetic(ch);
    Delimiters(ch);
    if ch == SP || IsEol(ch) || ch == HT || ch == '\U{0C}' { Blanks(ch); }
  }

  lemma UrlEnds(ch: char)
    ensures ch in LETTERS + "/* " <==> ch in LETTERS || ch in "/*" || ch == ' '
    ensures ch in LETTERS + ":" <==> ch in LETTERS || ch == ':'
    ensures ch in SERVER + "@ " <==> ch in SERVER || ch == '@' || ch == ' '
    ensures ch in SERVER + "@" <==> ch in SERVER || ch == '@'
    ensures ch in SERVER + "@ \r\n" <==> ch in SERVER || ch == '@' || ch == SP || IsEol(ch)
    ensures ch in SERVER + " \r\n" <==> ch in SERVER || ch == SP || IsEol(ch)
    ensures ch in URL + "?# \r\n" <==> ch in URL || ch in "?#" || ch == SP || IsEol(ch)
  {
    hide SERVER, URL, LETTERS;
  }

  /** What a state of the URL awaits is what leads on, a space before the URL, and what may end it. */
  lemma UrlAwaits(s: UrlState, connect: bool, ch: char)
    ensures
      var s' := if s.ReqSpacesBeforeUrl? && connect then ReqServerStart else s;
      var w := AwaitsUrl(s', s.ReqSpacesBeforeUrl?);
      && w.Some? && w.value.1 == INVALID_URL
      && (ch in w.value.0 <==> LeadsOn(s', ch) || (s.ReqSpacesBeforeUrl? && ch == SP) || (UrlMayEnd(s) && (ch == SP || IsEol(ch))))
  {
    UrlEnds(ch);
    hide SERVER, URL, LETTERS;
  }

  lemma TargetAgrees(ps: Parser, skip: bool, s: UrlState, ch: char)
    requires ps.state == Target(s)
    ensures Agrees(ps, skip, ch, TargetPass(ps, s, ch))
  {
    hide AwaitsStart, AwaitsStatus, AwaitsUrl, AwaitsVersion, AwaitsChunk, AtField, CodeFits, ParseUrlChar, LeadsOn;
    UrlLeadsOn(if s.ReqSpacesBeforeUrl? && ps.verb.CONNECT? then ReqServerStart else s, ch);
    UrlAwaits(s, ps.verb.CONNECT?, ch);
  }

  lemma VersionAgrees(ps: Parser, skip: bool, s: VersionState, ch: char)
    requires ps.state == Version(s)
    ensures Agrees(ps, skip, ch, VersionPass(ps, s, ch))
  {
    hide AwaitsStart, AwaitsStatus, AwaitsUrl, AwaitsChunk, AtField, CodeFits;
    Alphabetic(ch);
    hide DIGITS, TOKEN, URL, USERINFO, LETTERS, HEXES, IsNum, IsToken, IsUrlChar, IsUserinfoChar, IsAlpha, IsHex, Digit;
  }

  /** The bytes after a digit of a size. */
  lemma SizeBytes(ch: char)
    ensures IsHex(ch) <==> ch in HEXES
    ensures ch in HEXES + "\r; " <==> IsHex(ch) || ch == CR || ch == ';' || ch == SP
    ensures ch == CR || ch == ';' || ch == SP ==> !IsHex(ch)
  {
    Alphabetic(ch);
    assert ch in HEXES + "\r; " <==> ch in HEXES || ch == CR || ch == ';' || ch == SP by { hide HEXES; }
    hide HEXES;
  }

  lemma ChunkAgrees(ps: Parser, skip: bool, s: ChunkState, ch: char)
    requires ps.state == Chunk(s)
    ensures Agrees(ps, skip, ch, ChunkPass(ps, s, ch))
  {
    hide AwaitsStart, AwaitsStatus, AwaitsUrl, AwaitsVersion, AtField, CodeFits, HEXES, IsHex, HexDigit;
    SizeBytes(ch);
  }

  lemma EndingAgrees(ps: Parser, skip: bool, s: EndingState, ch: char)
    requires ps.state == Ending(s)
    ensures Agrees(ps, skip, ch, EndingPass(ps, s, ch))
  {
    hide AwaitsStart, AwaitsStatus, AwaitsUrl, AwaitsVersion, AwaitsChunk, AtField, CodeFits;
    hide Upgrades;
  }

  lemma ContentAgrees(ps: Parser, skip: bool, s: ContentState, ch: char)
    requires ps.state == Content(s)
    ensures Agrees(ps, skip, ch, ContentPass(ps, s))
  {
    hide AwaitsStart, AwaitsStatus, AwaitsUrl, AwaitsVersion, AwaitsChunk, AtField, CodeFits;
  }

  lemma ValueBytes(ch: char)
    ensures IsHeaderChar(ch) || IsEol(ch) <==> !((ch < ' ' && ch != '\t') || ch as int == 127) || ch in "\r\n"
    ensures IsEol(ch) <==> ch in "\r\n"
    ensures ch in " \t" <==> ch == SP || ch == HT
  {
  }

  lemma FirstValueAgrees(ps: Parser, ch: char)
    ensures
      var r := FirstValueChar(ps, ch);
      r.control == match AtFirstValueByte(ps, ch) case Some(e) => Fail(e) case None => Control.Next
  {
    Alphabetic(ch);
    hide DIGITS, TOKEN, URL, USERINFO, LETTERS, HEXES, IsNum, IsToken, IsUrlChar, IsUserinfoChar, IsAlpha, IsHex, Digit, FirstValueState;
  }

  lemma ValueAgrees(ps: Parser, skip: bool, ch: char)
    requires ps.lenient || skip || IsHeaderChar(ch)
    requires ch != CR && ch != LF
    ensures
      var r := ValueChar(ps, ch);
      r.control == match AtValueByte(ps, skip, ch) case Some(e) => Fail(e) case None => Control.Next
  {
    Alphabetic(ch);
    ValueBytes(ch);
    hide DIGITS, TOKEN, URL, USERINFO, LETTERS, HEXES, IsNum, IsToken, IsUrlChar, IsUserinfoChar, IsAlpha, IsHex, Digit, ListChar, FinishFlags;
  }

  /** The end of a head is the same contradiction before and after the flags of its last header are set. */
  lemma FinishContradicts(ps: Parser)
    requires ps.state.Fields?
    ensures Contradicts(Finish(ps).(hstate := General)) <==> Contradicts(ps)
  {
    FinishChunked(ps.hstate, ps.flags);
    hide FinishFlags;
  }

  lemma FinishChunked(h: HeaderState, f: Flags)
    ensures
      var g := FinishFlags(h, f);
      && g.trailing == f.trailing && g.contentLength == f.contentLength
      && (g.chunked <==> f.chunked || h.TransferEncodingChunked?)
  {
  }

  lemma LineStartAgrees(ps: Parser, skip: bool, ch: char)
    requires ps.state == Fields(FieldStart)
    ensures Agrees(ps, skip, ch, FieldsPass(ps, FieldStart, skip, ch))
  {
    hide AwaitsStart, AwaitsStatus, AwaitsUrl, AwaitsVersion, AwaitsChunk, CodeFits;
    Alphabetic(ch);
    ValueBytes(ch);
    hide DIGITS, TOKEN, URL, USERINFO, LETTERS, HEXES, IsNum, IsToken, IsUrlChar, IsUserinfoChar, IsAlpha, IsHex, IsHeaderChar;
  }

  lemma LwsAgrees(ps: Parser, skip: bool, s: FieldState, ch: char)
    requires ps.state == Fields(s) && (s.ValueLws? || s.DiscardLws?)
    ensures Agrees(ps, skip, ch, FieldsPass(ps, s, skip, ch))
  {
    hide AwaitsStart, AwaitsStatus, AwaitsUrl, AwaitsVersion, AwaitsChunk, CodeFits;
    ValueBytes(ch);
    FinishContradicts(ps);
    hide TOKEN, FirstValueChar, AtFirstValueByte, FinishFlags;
  }

  lemma ValueByteAgrees(ps: Parser, skip: bool, ch: char)
    requires ps.state == Fields(InValue)
    ensures Agrees(ps, skip, ch, FieldsPass(ps, InValue, skip, ch))
  {
    hide AwaitsStart, AwaitsStatus, AwaitsUrl, AwaitsVersion, AwaitsChunk, CodeFits, IsHeaderChar, ValueChar, DIGITS;
    ValueBytes(ch);
    if ch != CR && ch != LF && (ps.lenient || skip || IsHeaderChar(ch)) { ValueAgrees(ps, skip, ch); }
  }

  lemma NameByteAgrees(ps: Parser, skip: bool, ch: char)
    requires ps.state == Fields(InField)
    ensures Agrees(ps, skip, ch, FieldsPass(ps, InField, skip, ch))
  {
    hide AwaitsStart, AwaitsStatus, AwaitsUrl, AwaitsVersion, AwaitsChunk, CodeFits, TOKEN, IsToken, NameChar;
    Alphabetic(ch);
    assert ch in TOKEN + ":" <==> ch in TOKEN || ch == ':';
  }

  lemma BlankByteAgrees(ps: Parser, skip: bool, s: FieldState, ch: char)
    requires ps.state == Fields(s) && s in {DiscardWs, DiscardWsAlmostDone, ValueStart, ValueAlmostDone}
    ensures Agrees(ps, skip, ch, FieldsPass(ps, s, skip, ch))
  {
    hide AwaitsStart, AwaitsStatus, AwaitsUrl, AwaitsVersion, AwaitsChunk, CodeFits, FirstValueChar, AtFirstValueByte;
    assert ch in " \t\r\n" <==> ch == SP || ch == HT || ch == CR || ch == LF;
    FirstValueAgrees(ps, ch);
  }

  lemma FieldsAgree(ps: Parser, skip: bool, s: FieldState, ch: char)
    requires ps.state == Fields(s)
    ensures Agrees(ps, skip, ch, FieldsPass(ps, s, skip, ch))
  {
    hide Agrees, FieldsPass;
    if s.FieldStart? {
      LineStartAgrees(ps, skip, ch);
    } else if s.ValueLws? || s.DiscardLws? {
      LwsAgrees(ps, skip, s, ch);
    } else if s.InValue? {
      ValueByteAgrees(ps, skip, ch);
    } else if s.InField? {
      NameByteAgrees(ps, skip, ch);
    } else {
      BlankByteAgrees(ps, skip, s, ch);
    }
  }

  lemma PassAgrees(ps: Parser, skip: bool, ch: char)
    requires ps.state != Start(ReqMethod)
    ensures Agrees(ps, skip, ch, PassOf(ps, skip, ch))
  {
    hide Agrees, StartPass, StatusLinePass, TargetPass, VersionPass, FieldsPass, EndingPass, ChunkPass, ContentPass;
    match ps.state
    case Dead => DeadAgrees(ps, skip, ch);
    case Start(s) => StartAgrees(ps, skip, s, ch);
    case StatusLine(s) =>
      if s.ResStatusCode? { CodeAgrees(ps, skip, ch); } else { StatusLineAgrees(ps, skip, s, ch); }
    case Target(s) => TargetAgrees(ps, skip, s, ch);
    case Version(s) => VersionAgrees(ps, skip, s, ch);
    case Fields(s) => FieldsAgree(ps, skip, s, ch);
    case Ending(s) => EndingAgrees(ps, skip, s, ch);
    case Chunk(s) => ChunkAgrees(ps, skip, s, ch);
    case Content(s) => ContentAgrees(ps, skip, s, ch);
  }

  /** A byte is refused exactly where the table says so, and with its error, however many states it is handed on to. In
      a method the error is that of a bad method. */
  lemma MethodFails(c: Config, ch: char)
    requires c.ps.state == Start(ReqMethod) && Passes(c, ch).1.Fail?
    ensures Passes(c, ch).1 == Fail(INVALID_METHOD)
  {
    hide MethodString, Redirect;
  }

  lemma {:induction false} Refuses(c: Config, ch: char)
    ensures c.ps.state != Start(ReqMethod) ==>
      forall e :: Passes(c, ch).1 == Fail(e) <==> Refusal(c.ps, c.skip, ch) == Some(e)
    ensures c.ps.state == Start(ReqMethod) && Passes(c, ch).1.Fail? ==> Passes(c, ch).1 == Fail(INVALID_METHOD)
    decreases Rank(c.ps.state)
  {
    hide PassOf, Refusal;
    if c.ps.state == Start(ReqMethod) {
      if Passes(c, ch).1.Fail? { MethodFails(c, ch); }
    } else {
      PassAgrees(c.ps, c.skip, ch);
      if PassOf(c.ps, c.skip, ch).control.Again? {
        Refuses(After(c, ch), ch);
      }
    }
  }
}
