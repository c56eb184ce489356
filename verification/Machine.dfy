/** The parser as a machine over single bytes: one `Pass` is one trip through the switch of
    http_parser_execute for one byte, `Passes` follows its `goto reexecute`, and `Run` consumes a buffer. */
module Machine {
  import opened Characters
  import opened Http
  import opened UrlChar

  /** How a pass leaves the switch. */
  datatype Control = Next | Again | Exit | Fail(errno: Errno)

  /** What a pass does to the marks and which callback it makes. */
  datatype Effect =
    | Nothing
    | SetMark(kind: Kind)  // MARK before the byte is looked at again
    | Byte(kind: Kind)     // MARK if need be: the byte belongs to the datum being collected
    | LastByte(kind: Kind) // the same, and CALLBACK_DATA including the byte
    | Deliver(kind: Kind)  // CALLBACK_DATA up to the byte, if a mark is set
    | Empty(kind: Kind)    // MARK and CALLBACK_DATA at once
    | Call(event: Event)   // a notify callback

  datatype Pass = Pass(ps: Parser, effect: Effect, reset: bool, control: Control)

  function To(ps: Parser, s: State): Pass {
    Pass(ps.(state := s), Nothing, false, Next)
  }

  function Stay(ps: Parser): Pass {
    Pass(ps, Nothing, false, Next)
  }

  function Error(ps: Parser, e: Errno): Pass {
    Pass(ps, Nothing, false, Fail(e))
  }

  /** A byte that must be `want`, and then state `s`. */
  function Expect(ps: Parser, ch: char, want: char, s: State, e: Errno): Pass {
    if ch == want then To(ps, s) else Error(ps, e)
  }

  /** The bound on consecutive `goto reexecute` from a state. */
  function Rank(s: State): nat {
    match s
    case Start(f) => if f.StartReqOrRes? then 1 else 0
    case StatusLine(r) => if r.ResStatusCode? then 2 else if r.ResStatusStart? then 1 else 0
    case Fields(f) =>
      if f.ValueLws? || f.DiscardLws? then 4
      else if f.FieldStart? then 3
      else if f.InValue? then 1
      else 0
    case Ending(e) => if e.HeadersAlmostDone? then 2 else 1
    case Content(b) => if b.BodyIdentity? then 1 else 0
    case _ => 0
  }

  function PassOf(ps: Parser, skip: bool, ch: char): (r: Pass)
    ensures r.control.Again? ==> Rank(r.ps.state) < Rank(ps.state)
  {
    match ps.state
    case Dead => if IsEol(ch) then Stay(ps) else Error(ps, CLOSED_CONNECTION)
    case Start(s) => StartPass(ps, s, ch)
    case StatusLine(s) => StatusLinePass(ps, s, ch)
    case Target(s) => TargetPass(ps, s, ch)
    case Version(s) => VersionPass(ps, s, ch)
    case Fields(s) => FieldsPass(ps, s, skip, ch)
    case Ending(s) => EndingPass(ps, s, ch)
    case Chunk(s) => ChunkPass(ps, s, ch)
    case Content(s) => ContentPass(ps, s)
  }

  /** What every start state does to the message record. */
  function Fresh(ps: Parser): Parser {
    ps.(flags := NO_FLAGS, length := ULLONG_MAX)
  }

  function StartPass(ps: Parser, s: StartState, ch: char): (r: Pass)
    ensures r.control.Again? ==> Rank(r.ps.state) < Rank(Start(s))
  {
    match s
    case StartReqOrRes =>
      if IsEol(ch) then Stay(ps)
      else if ch == 'H' then Pass(Fresh(ps).(state := Start(ResOrRespH)), Call(MessageBegin), false, Next)
      else Pass(Fresh(ps).(ptype := REQUEST, state := Start(StartReq)), Nothing, false, Again)
    case ResOrRespH =>
      if ch == 'T' then To(ps.(ptype := RESPONSE), StatusLine(ResHT))
      else if ch == 'E' then To(ps.(ptype := REQUEST, verb := HEAD, index := 2), Start(ReqMethod))
      else Error(ps, INVALID_CONSTANT)
    case StartRes =>
      if ch == 'H' then Pass(Fresh(ps).(state := StatusLine(ResH)), Call(MessageBegin), false, Next)
      else if IsEol(ch) then Pass(Fresh(ps), Call(MessageBegin), false, Next)
      else Error(ps, INVALID_CONSTANT)
    case StartReq =>
      if IsEol(ch) then Stay(ps)
      else if FirstLetter(ch).None? then Error(ps, INVALID_METHOD)
      else
        Pass(Fresh(ps).(verb := FirstLetter(ch).value, index := 1, state := Start(ReqMethod)), Call(MessageBegin), false, Next)
    case ReqMethod => MethodChar(ps, ch)
  }

  /** One more byte of a request method. */
  function MethodChar(ps: Parser, ch: char): Pass {
    var matcher := CharAt(MethodString(ps.verb), ps.index);
    if ch == '\0' then Error(ps, INVALID_METHOD)
    else if ch == SP && matcher == '\0' then To(ps.(index := ps.index + 1), Target(ReqSpacesBeforeUrl))
    else if ch == matcher then Stay(ps.(index := ps.index + 1))
    else
      match Redirect(ps.verb, ps.index, ch)
      case None => Error(ps, INVALID_METHOD)
      case Some(m) => Stay(ps.(verb := m, index := ps.index + 1))
  }

  /** The byte of a NUL-terminated string. */
  function CharAt(s: string, i: nat): char {
    if i < |s| then s[i] else '\0'
  }

  /** The method assumed after the first letter of a request. */
  function FirstLetter(ch: char): Option<Method> {
    match ch
    case 'A' => Some(ACL)
    case 'B' => Some(BIND)
    case 'C' => Some(CONNECT)
    case 'D' => Some(DELETE)
    case 'G' => Some(GET)
    case 'H' => Some(HEAD)
    case 'L' => Some(LOCK)
    case 'M' => Some(MKCOL)
    case 'N' => Some(NOTIFY)
    case 'O' => Some(OPTIONS)
    case 'P' => Some(POST)
    case 'R' => Some(REPORT)
    case 'S' => Some(SUBSCRIBE)
    case 'T' => Some(TRACE)
    case 'U' => Some(UNLOCK)
    case _ => None
  }

  /** The method switch: another method that shares the bytes read so far. */
  function Redirect(m: Method, index: nat, ch: char): Option<Method> {
    match m
    case POST =>
      if index == 1 && ch == 'U' then Some(PUT)
      else if index == 1 && ch == 'A' then Some(PATCH)
      else if index == 1 && ch == 'R' then Some(PROPFIND)
      else None
    case PUT => if index == 2 && ch == 'R' then Some(PURGE) else None
    case CONNECT =>
      if index == 1 && ch == 'H' then Some(CHECKOUT)
      else if index == 2 && ch == 'P' then Some(COPY)
      else None
    case MKCOL =>
      if index == 1 && ch == 'O' then Some(MOVE)
      else if index == 1 && ch == 'E' then Some(MERGE)
      else if index == 1 && ch == '-' then Some(MSEARCH)
      else if index == 2 && ch == 'A' then Some(MKACTIVITY)
      else if index == 3 && ch == 'A' then Some(MKCALENDAR)
      else None
    case SUBSCRIBE =>
      if index == 1 && ch == 'E' then Some(SEARCH)
      else if index == 1 && ch == 'O' then Some(SOURCE)
      else None
    case REPORT => if index == 2 && ch == 'B' then Some(REBIND) else None
    case PROPFIND => if index == 4 && ch == 'P' then Some(PROPPATCH) else None
    case LOCK => if index == 1 && ch == 'I' then Some(LINK) else None
    case UNLOCK =>
      if index == 2 && ch == 'S' then Some(UNSUBSCRIBE)
      else if index == 2 && ch == 'B' then Some(UNBIND)
      else if index == 3 && ch == 'I' then Some(UNLINK)
      else None
    case _ => None
  }

  function StatusLinePass(ps: Parser, s: StatusLineState, ch: char): (r: Pass)
    ensures r.control.Again? ==> Rank(r.ps.state) < Rank(StatusLine(s))
  {
    match s
    case ResH => Expect(ps, ch, 'T', StatusLine(ResHT), STRICT)
    case ResHT => Expect(ps, ch, 'T', StatusLine(ResHTT), STRICT)
    case ResHTT => Expect(ps, ch, 'P', StatusLine(ResHTTP), STRICT)
    case ResHTTP => Expect(ps, ch, '/', StatusLine(ResHttpMajor), STRICT)
    case ResHttpMajor =>
      if IsNum(ch) then To(ps.(major := Digit(ch)), StatusLine(ResHttpDot)) else Error(ps, INVALID_VERSION)
    case ResHttpDot => Expect(ps, ch, '.', StatusLine(ResHttpMinor), INVALID_VERSION)
    case ResHttpMinor =>
      if IsNum(ch) then To(ps.(minor := Digit(ch)), StatusLine(ResHttpEnd)) else Error(ps, INVALID_VERSION)
    case ResHttpEnd => Expect(ps, ch, SP, StatusLine(ResFirstStatusCode), INVALID_VERSION)
    case ResFirstStatusCode =>
      if IsNum(ch) then To(ps.(status := Digit(ch)), StatusLine(ResStatusCode))
      else if ch == SP then Stay(ps)
      else Error(ps, INVALID_STATUS)
    case ResStatusCode =>
      if IsNum(ch) then
        var code := ps.status * 10 + Digit(ch);
        if code > 999 then Error(ps, INVALID_STATUS) else Stay(ps.(status := code))
      else if ch == SP then To(ps, StatusLine(ResStatusStart))
      else if IsEol(ch) then Pass(ps.(state := StatusLine(ResStatusStart)), Nothing, false, Again)
      else Error(ps, INVALID_STATUS)
    case ResStatusStart =>
      var ps' := ps.(state := StatusLine(ResStatus), index := 0);
      if IsEol(ch) then Pass(ps', SetMark(Kind.Status), false, Again)
      else Pass(ps', Byte(Kind.Status), false, Next)
    case ResStatus =>
      if ch == CR then Pass(ps.(state := StatusLine(ResLineAlmostDone)), Deliver(Kind.Status), false, Next)
      else if ch == LF then Pass(ps.(state := Fields(FieldStart)), Deliver(Kind.Status), false, Next)
      else Pass(ps, Byte(Kind.Status), false, Next)
    case ResLineAlmostDone => Expect(ps, ch, LF, Fields(FieldStart), STRICT)
  }

  /** The states in which the URL may end. */
  predicate UrlMayEnd(s: UrlState) {
    s.ReqServer? || s.ReqServerWithAt? || s.ReqPath? || s.ReqQueryStringStart? || s.ReqQueryString?
    || s.ReqFragmentStart? || s.ReqFragment?
  }

  function TargetPass(ps: Parser, s: UrlState, ch: char): Pass {
    if s.ReqSpacesBeforeUrl? && ch == SP then Stay(ps)
    else if UrlMayEnd(s) && ch == SP then
      Pass(ps.(state := Version(ReqHttpStart)), Deliver(Kind.Url), false, Next)
    else if UrlMayEnd(s) && IsEol(ch) then
      Pass(ps.(major := 0, minor := 9, state := if ch == CR then Version(ReqLineAlmostDone) else Fields(FieldStart)),
           Deliver(Kind.Url), false, Next)
    else
      match ParseUrlChar(if s.ReqSpacesBeforeUrl? && ps.verb.CONNECT? then ReqServerStart else s, ch)
      case None => Error(ps, INVALID_URL)
      case Some(s') => Pass(ps.(state := Target(s')), Byte(Kind.Url), false, Next)
  }

  function VersionPass(ps: Parser, s: VersionState, ch: char): Pass {
    match s
    case ReqHttpStart =>
      if ch == 'H' then To(ps, Version(ReqHttpH))
      else if ch == SP then Stay(ps)
      else Error(ps, INVALID_CONSTANT)
    case ReqHttpH => Expect(ps, ch, 'T', Version(ReqHttpHT), STRICT)
    case ReqHttpHT => Expect(ps, ch, 'T', Version(ReqHttpHTT), STRICT)
    case ReqHttpHTT => Expect(ps, ch, 'P', Version(ReqHttpHTTP), STRICT)
    case ReqHttpHTTP => Expect(ps, ch, '/', Version(ReqHttpMajor), STRICT)
    case ReqHttpMajor =>
      if IsNum(ch) then To(ps.(major := Digit(ch)), Version(ReqHttpDot)) else Error(ps, INVALID_VERSION)
    case ReqHttpDot => Expect(ps, ch, '.', Version(ReqHttpMinor), INVALID_VERSION)
    case ReqHttpMinor =>
      if IsNum(ch) then To(ps.(minor := Digit(ch)), Version(ReqHttpEnd)) else Error(ps, INVALID_VERSION)
    case ReqHttpEnd =>
      if ch == CR then To(ps, Version(ReqLineAlmostDone))
      else if ch == LF then To(ps, Fields(FieldStart))
      else Error(ps, INVALID_VERSION)
    case ReqLineAlmostDone => Expect(ps, ch, LF, Fields(FieldStart), LF_EXPECTED)
  }

  const CONNECTION := "connection"
  const PROXY_CONNECTION := "proxy-connection"
  const CONTENT_LENGTH := "content-length"
  const TRANSFER_ENCODING := "transfer-encoding"
  const UPGRADE := "upgrade"
  const CHUNKED := "chunked"
  const KEEP_ALIVE := "keep-alive"
  const CLOSE := "close"

  /** The header state after the first character of a field name. */
  function FirstNameChar(c: char): HeaderState {
    match c
    case 'c' => C
    case 'p' => MatchingProxyConnection
    case 't' => MatchingTransferEncoding
    case 'u' => MatchingUpgrade
    case _ => General
  }

  /** One step of matching a keyword whose first `i` characters were matched before this one was counted. */
  function Match(word: string, i: nat, c: char, matching: HeaderState, whole: HeaderState, other: HeaderState): HeaderState {
    if i > |word| || c != CharAt(word, i) then other
    else if i + 1 == |word| then whole
    else matching
  }

  /** The header state and index after one more character of a field name; `c` is the lower-case form. */
  function NameChar(h: HeaderState, i: nat, c: char): (HeaderState, nat) {
    match h
    case C => (if c == 'o' then CO else General, i + 1)
    case CO => (if c == 'n' then CON else General, i + 1)
    case CON => (if c == 'n' then MatchingConnection else if c == 't' then MatchingContentLength else General, i + 1)
    case MatchingConnection => (Match(CONNECTION, i + 1, c, h, Connection, General), i + 1)
    case MatchingProxyConnection => (Match(PROXY_CONNECTION, i + 1, c, h, Connection, General), i + 1)
    case MatchingContentLength => (Match(CONTENT_LENGTH, i + 1, c, h, ContentLength, General), i + 1)
    case MatchingTransferEncoding => (Match(TRANSFER_ENCODING, i + 1, c, h, TransferEncoding, General), i + 1)
    case MatchingUpgrade => (Match(UPGRADE, i + 1, c, h, Upgrade, General), i + 1)
    case Connection | ContentLength | TransferEncoding | Upgrade => (General, i)
    case _ => (h, i)
  }

  /** The flag a finished header value sets. */
  function FinishFlags(h: HeaderState, flags: Flags): Flags {
    match h
    case ConnectionKeepAlive => flags.(connectionKeepAlive := true)
    case ConnectionClose => flags.(connectionClose := true)
    case ConnectionUpgrade => flags.(connectionUpgrade := true)
    case TransferEncodingChunked => flags.(chunked := true)
    case _ => flags
  }

  function Finish(ps: Parser): Parser {
    ps.(flags := FinishFlags(ps.hstate, ps.flags))
  }

  /** The header state after the first character of a header value; `c` is LOWER of it. */
  function FirstValueState(h: HeaderState, c: char): HeaderState {
    match h
    case TransferEncoding => if c == 'c' then MatchingTransferEncodingChunked else General
    case ContentLength => ContentLengthNum
    case Connection =>
      if c == 'k' then MatchingConnectionKeepAlive
      else if c == 'c' then MatchingConnectionClose
      else if c == 'u' then MatchingConnectionUpgrade
      else MatchingConnectionToken
    case MatchingConnectionTokenStart => h
    case _ => General
  }

  /** The flag the first character of a header value sets. */
  function FirstValueFlags(h: HeaderState, flags: Flags): Flags {
    if h.ContentLength? then flags.(contentLength := true)
    else if h.Upgrade? then flags.(upgrade := true)
    else flags
  }

  /** The first byte of a header value. */
  function FirstValueChar(ps: Parser, ch: char): Pass {
    var h := ps.hstate;
    if h.ContentLength? && !IsNum(ch) then Error(ps, INVALID_CONTENT_LENGTH)
    else if h.ContentLength? && ps.flags.contentLength then Error(ps, UNEXPECTED_CONTENT_LENGTH)
    else
      Pass(ps.(state := Fields(InValue), index := 0, hstate := FirstValueState(h, Lower(ch)),
               flags := FirstValueFlags(h, ps.flags), length := if h.ContentLength? then Digit(ch) else ps.length),
           Byte(Kind.Value), false, Next)
  }

  /** One more character of a Connection or Transfer-Encoding value: the header state and index after it.
      As in the source the comparison is with LOWER(ch), so a horizontal tab (which LOWER turns into a
      right parenthesis) does not count as white space at the start of a list element. */
  function ListChar(h: HeaderState, i: nat, ch: char): (HeaderState, nat) {
    var c := Lower(ch);
    match h
    case MatchingTransferEncodingChunked =>
      (Match(CHUNKED, i + 1, c, h, TransferEncodingChunked, General), i + 1)
    case MatchingConnectionTokenStart =>
      (if c == 'k' then MatchingConnectionKeepAlive
       else if c == 'c' then MatchingConnectionClose
       else if c == 'u' then MatchingConnectionUpgrade
       else if IsToken(c) then MatchingConnectionToken
       else if c == SP || c == HT then h
       else General, i)
    case MatchingConnectionKeepAlive =>
      (Match(KEEP_ALIVE, i + 1, c, h, ConnectionKeepAlive, MatchingConnectionToken), i + 1)
    case MatchingConnectionClose =>
      (Match(CLOSE, i + 1, c, h, ConnectionClose, MatchingConnectionToken), i + 1)
    case MatchingConnectionUpgrade =>
      (Match(UPGRADE, i + 1, c, h, ConnectionUpgrade, MatchingConnectionToken), i + 1)
    case MatchingConnectionToken =>
      if ch == ',' then (MatchingConnectionTokenStart, 0) else (h, i)
    case TransferEncodingChunked =>
      (if ch == SP then h else General, i)
    case ConnectionKeepAlive | ConnectionClose | ConnectionUpgrade =>
      if ch == ',' then (MatchingConnectionTokenStart, 0)
      else (if ch == SP then h else MatchingConnectionToken, i)
    case General | Connection | TransferEncoding => (h, i)
    case _ => (General, i)
  }

  /** A byte of a header value that is neither CR nor LF and has passed IS_HEADER_CHAR. */
  function ValueChar(ps: Parser, ch: char): Pass {
    match ps.hstate
    case ContentLength | ContentLengthNum =>
      if ch == SP then
        Pass(ps.(hstate := if ps.hstate.ContentLength? then ContentLength else ContentLengthWs), Byte(Kind.Value), false, Next)
      else if !IsNum(ch) || (ULLONG_MAX - 10) / 10 < ps.length then Error(ps, INVALID_CONTENT_LENGTH)
      else Pass(ps.(hstate := ContentLengthNum, length := (ps.length * 10 + Digit(ch)) % TWO_TO_THE_64),
                Byte(Kind.Value), false, Next)
    case ContentLengthWs =>
      if ch == SP then Pass(ps, Byte(Kind.Value), false, Next) else Error(ps, INVALID_CONTENT_LENGTH)
    case _ =>
      var (h, i) := ListChar(ps.hstate, ps.index, ch);
      // a comma ends an element of a Connection list, but not a transfer coding
      var ends := ch == ',' && !ps.hstate.TransferEncodingChunked?;
      Pass(ps.(hstate := h, index := i, flags := if ends then FinishFlags(ps.hstate, ps.flags) else ps.flags),
           Byte(Kind.Value), false, Next)
  }

  function FieldsPass(ps: Parser, s: FieldState, skip: bool, ch: char): (r: Pass)
    ensures r.control.Again? ==> Rank(r.ps.state) < Rank(Fields(s))
  {
    match s
    case FieldStart =>
      if ch == CR then To(ps, Ending(HeadersAlmostDone))
      else if ch == LF then Pass(ps.(state := Ending(HeadersAlmostDone)), Nothing, false, Again)
      else if !IsToken(ch) then Error(ps, INVALID_HEADER_TOKEN)
      else Pass(ps.(state := Fields(InField), index := 0, hstate := FirstNameChar(TokenLower(ch))), Byte(Kind.Field), false, Next)
    case InField =>
      if IsToken(ch) then
        var (h, i) := NameChar(ps.hstate, ps.index, TokenLower(ch));
        Pass(ps.(hstate := h, index := i), Byte(Kind.Field), false, Next)
      else if ch == ':' then Pass(ps.(state := Fields(DiscardWs)), Deliver(Kind.Field), false, Next)
      else Error(ps, INVALID_HEADER_TOKEN)
    case DiscardWs =>
      if ch == SP || ch == HT then Stay(ps)
      else if ch == CR then To(ps, Fields(DiscardWsAlmostDone))
      else if ch == LF then To(ps, Fields(DiscardLws))
      else FirstValueChar(ps, ch)
    case DiscardWsAlmostDone => Expect(ps, ch, LF, Fields(DiscardLws), STRICT)
    case DiscardLws =>
      if ch == SP || ch == HT then To(ps, Fields(DiscardWs))
      else Pass(Finish(ps).(state := Fields(FieldStart)), Empty(Kind.Value), false, Again)
    case ValueStart => FirstValueChar(ps, ch)
    case InValue =>
      if ch == CR then Pass(ps.(state := Fields(ValueAlmostDone)), Deliver(Kind.Value), false, Next)
      else if ch == LF then Pass(ps.(state := Fields(ValueAlmostDone)), Deliver(Kind.Value), false, Again)
      else if !ps.lenient && !skip && !IsHeaderChar(ch) then Error(ps, INVALID_HEADER_TOKEN)
      else ValueChar(ps, ch)
    case ValueAlmostDone => Expect(ps, ch, LF, Fields(ValueLws), LF_EXPECTED)
    case ValueLws =>
      if ch == SP || ch == HT then Pass(ps.(state := Fields(ValueStart)), Nothing, false, Again)
      else Pass(Finish(ps).(state := Fields(FieldStart)), Nothing, false, Again)
  }

  /** The value of parser->upgrade at the end of the headers. */
  predicate Upgrades(ps: Parser) {
    if ps.flags.upgrade && ps.flags.connectionUpgrade then ps.ptype.REQUEST? || ps.status == 101
    else ps.verb.CONNECT?
  }

  predicate HasBody(ps: Parser) {
    ps.flags.chunked || (ps.length > 0 && ps.length != ULLONG_MAX)
  }

  function EndingPass(ps: Parser, s: EndingState, ch: char): (r: Pass)
    ensures r.control.Again? ==> Rank(r.ps.state) < Rank(Ending(s))
  {
    if ch != LF then Error(ps, STRICT)
    else
      match s
      case HeadersAlmostDone =>
        if ps.flags.trailing then
          Pass(ps.(state := Content(MessageDone)), Call(ChunkComplete), false, Again)
        else if ps.flags.chunked && ps.flags.contentLength then
          Error(ps, UNEXPECTED_CONTENT_LENGTH)
        else
          Pass(ps.(state := Ending(HeadersDone), upgrade := Upgrades(ps)),
               Call(HeadersComplete(Head(ps.major, ps.minor, ps.status, ps.verb, ps.length))), false, Again)
      case HeadersDone =>
        var complete := Pass(ps.(state := NewMessage(ps)), Call(MessageComplete), true, Next);
        if ps.upgrade && (ps.verb.CONNECT? || ps.flags.skipBody || !HasBody(ps)) then complete.(control := Exit)
        else if ps.flags.skipBody then complete
        else if ps.flags.chunked then Pass(ps.(state := Chunk(ChunkSizeStart)), Nothing, true, Next)
        else if ps.length == 0 then complete
        else if ps.length != ULLONG_MAX then Pass(ps.(state := Content(BodyIdentity)), Nothing, true, Next)
        else if NeedsEof(ps) then Pass(ps.(state := Content(BodyIdentityEof)), Nothing, true, Next)
        else complete
  }

  function ChunkPass(ps: Parser, s: ChunkState, ch: char): Pass {
    match s
    case ChunkSizeStart =>
      if IsHex(ch) then To(ps.(length := HexDigit(ch)), Chunk(ChunkSize)) else Error(ps, INVALID_CHUNK_SIZE)
    case ChunkSize =>
      if ch == CR then To(ps, Chunk(ChunkSizeAlmostDone))
      else if IsHex(ch) then
        if (ULLONG_MAX - 16) / 16 < ps.length then Error(ps, INVALID_CONTENT_LENGTH)
        else Stay(ps.(length := (ps.length * 16 + HexDigit(ch)) % TWO_TO_THE_64))
      else if ch == ';' || ch == SP then To(ps, Chunk(ChunkParameters))
      else Error(ps, INVALID_CHUNK_SIZE)
    case ChunkParameters =>
      if ch == CR then To(ps, Chunk(ChunkSizeAlmostDone)) else Stay(ps)
    case ChunkSizeAlmostDone =>
      if ch != LF then Error(ps, STRICT)
      else if ps.length == 0 then
        Pass(ps.(flags := ps.flags.(trailing := true), state := Fields(FieldStart)), Call(ChunkHeader(0)), true, Next)
      else
        Pass(ps.(state := Chunk(ChunkData)), Call(ChunkHeader(ps.length)), true, Next)
    case ChunkData =>
      if ps.length <= 1 then Pass(ps.(length := 0, state := Chunk(ChunkDataAlmostDone)), Byte(Kind.Body), false, Next)
      else Pass(ps.(length := ps.length - 1), Byte(Kind.Body), false, Next)
    case ChunkDataAlmostDone =>
      if ch == CR then Pass(ps.(state := Chunk(ChunkDataDone)), Deliver(Kind.Body), false, Next) else Error(ps, STRICT)
    case ChunkDataDone =>
      if ch == LF then Pass(ps.(state := Chunk(ChunkSizeStart)), Call(ChunkComplete), true, Next) else Error(ps, STRICT)
  }

  function ContentPass(ps: Parser, s: ContentState): (r: Pass)
    ensures r.control.Again? ==> Rank(r.ps.state) < Rank(Content(s))
  {
    match s
    case BodyIdentity =>
      if ps.length <= 1 then Pass(ps.(length := 0, state := Content(MessageDone)), LastByte(Kind.Body), false, Again)
      else Pass(ps.(length := ps.length - 1), Byte(Kind.Body), false, Next)
    case BodyIdentityEof => Pass(ps, Byte(Kind.Body), false, Next)
    case MessageDone =>
      Pass(ps.(state := NewMessage(ps)), Call(MessageComplete), false, if ps.upgrade then Exit else Next)
  }

  /** The datum that is being collected in a state. */
  function Collecting(s: State): Option<Kind> {
    match s
    case Fields(f) => if f.InField? then Some(Kind.Field) else if f.InValue? then Some(Kind.Value) else None
    case Target(u) => if u.ReqSpacesBeforeUrl? then None else Some(Kind.Url)
    case StatusLine(r) => if r.ResStatus? then Some(Kind.Status) else None
    case Chunk(c) => if c.ChunkData? || c.ChunkDataAlmostDone? then Some(Kind.Body) else None
    case Content(b) => if b.MessageDone? then None else Some(Kind.Body)
    case _ => None
  }

  /** A parser together with what surrounds it: `skip` says that the previous byte of the same buffer was an
      unrecognised header value byte (the code then jumps ahead without looking), `n` counts the header bytes
      since the last reset and `peak` is the largest count so far; `calls` are the callbacks made, and `pend`
      holds the bytes of the datum that is marked but not yet delivered. */
  datatype Config = Config(ps: Parser, skip: bool, n: nat, peak: nat, calls: seq<Event>, pend: Option<string>)

  function Held(pend: Option<string>): string {
    match pend case None => "" case Some(s) => s
  }

  /** What is marked but undelivered after an effect. */
  function Pend(pend: Option<string>, e: Effect, ch: char): Option<string> {
    match e
    case SetMark(_) => Some(Held(pend))
    case Byte(_) => Some(Held(pend) + [ch])
    case LastByte(_) => None
    case Deliver(_) => None
    case Empty(_) => None
    case _ => pend
  }

  /** The callback of an effect. */
  function Calls(pend: Option<string>, e: Effect, ch: char): seq<Event> {
    match e
    case LastByte(k) => [Data(k, Held(pend) + [ch])]
    case Deliver(k) => if pend.Some? then [Data(k, pend.value)] else []
    case Empty(k) => [Data(k, Held(pend))]
    case Call(ev) => [ev]
    case _ => []
  }

  /** One trip through the switch. */
  function After(c: Config, ch: char): Config {
    var r := PassOf(c.ps, c.skip, ch);
    Config(r.ps, r.control.Next? && c.ps.state == Fields(InValue) && c.ps.hstate.General? && !IsEol(ch),
           if r.reset then 0 else c.n, c.peak, c.calls + Calls(c.pend, r.effect, ch), Pend(c.pend, r.effect, ch))
  }

  /** All trips through the switch for one byte. */
  function Passes(c: Config, ch: char): (r: (Config, Control))
    ensures !r.1.Again?
    ensures r.0.peak == c.peak && r.0.n <= c.n
    decreases Rank(c.ps.state)
  {
    var r := PassOf(c.ps, c.skip, ch);
    if r.control.Again? then Passes(After(c, ch), ch) else (After(c, ch), r.control)
  }

  /** COUNT_HEADER_SIZE(1) without its limit. */
  function Count(c: Config): (r: Config)
    ensures r == c.(n := r.n, peak := r.peak)
    ensures r.peak >= c.peak && (c.n <= c.peak ==> r.n <= r.peak)
  {
    var n := if ParsingHeader(c.ps.state) then c.n + 1 else c.n;
    c.(n := n, peak := if n > c.peak then n else c.peak)
  }

  datatype Outcome = Completed | Exited | Failed(errno: Errno)

  /** The configuration a run ends in, the number of bytes it consumed, and how it ended. */
  datatype RunResult = RunResult(c: Config, at: nat, outcome: Outcome)

  /** The start of a buffer: a datum that was being collected is marked again, except a body. */
  function Begin(c: Config): Config {
    c.(skip := false, pend := if Collecting(c.ps.state) in {None, Some(Kind.Body)} then None else Some(""))
  }

  /** The end of a buffer: a marked datum is delivered. */
  function End(c: Config): (r: Config)
    ensures r.peak == c.peak && r.n == c.n
  {
    if c.pend.Some? && Collecting(c.ps.state).Some? then
      c.(calls := c.calls + [Data(Collecting(c.ps.state).value, c.pend.value)], pend := None)
    else
      c
  }

  /** Consumes data[p..] byte by byte, to the end of the buffer. */
  function Run(c: Config, data: string, p: nat): (r: RunResult)
    requires p <= |data|
    ensures p <= r.at <= |data|
    ensures r.outcome.Completed? ==> r.at == |data|
    ensures r.c.peak >= c.peak && (c.n <= c.peak ==> r.c.n <= r.c.peak)
    decreases |data| - p, 1
  {
    if p == |data| then RunResult(End(c), p, Completed) else Resume(Count(c), data, p)
  }

  /** Consumes data[p..] when byte p has been counted already. */
  function Resume(c: Config, data: string, p: nat): (r: RunResult)
    requires p < |data|
    ensures p <= r.at <= |data|
    ensures r.outcome.Completed? ==> r.at == |data|
    ensures r.c.peak >= c.peak && (c.n <= c.peak ==> r.c.n <= r.c.peak)
    decreases |data| - p, 0
  {
    var (c', control) := Passes(c, data[p]);
    match control
    case Next => Run(c', data, p + 1)
    case Exit => RunResult(c', p + 1, Exited)
    case Fail(e) => RunResult(c', p, Failed(e))
    case Again => assert false; RunResult(c', p, Completed)
  }

  /** What one call on a non-empty buffer does. */
  function RunBuffer(c: Config, data: string): (r: RunResult)
    ensures r.at <= |data| && (r.outcome.Completed? ==> r.at == |data|)
    ensures r.c.peak >= c.peak && (c.n <= c.peak ==> r.c.n <= r.c.peak)
  {
    Run(Begin(c), data, 0)
  }
}
