/** The records and tables of anet/extra/http_parser.h and the state enumerations
    of anet/extra/http_parser.c. */
module Http {

  datatype Option<+T> = None | Some(value: T)

  const ULLONG_MAX: nat := 0xFFFF_FFFF_FFFF_FFFF
  const TWO_TO_THE_64: nat := 0x1_0000_0000_0000_0000
  const HTTP_MAX_HEADER_SIZE: nat := 80 * 1024

  datatype Method =
    | DELETE | GET | HEAD | POST | PUT | CONNECT | OPTIONS | TRACE
    | COPY | LOCK | MKCOL | MOVE | PROPFIND | PROPPATCH | SEARCH | UNLOCK | BIND | REBIND | UNBIND | ACL
    | REPORT | MKACTIVITY | CHECKOUT | MERGE
    | MSEARCH | NOTIFY | SUBSCRIBE | UNSUBSCRIBE
    | PATCH | PURGE | MKCALENDAR | LINK | UNLINK | SOURCE

  function MethodString(m: Method): string {
    match m
    case DELETE => "DELETE"
    case GET => "GET"
    case HEAD => "HEAD"
    case POST => "POST"
    case PUT => "PUT"
    case CONNECT => "CONNECT"
    case OPTIONS => "OPTIONS"
    case TRACE => "TRACE"
    case COPY => "COPY"
    case LOCK => "LOCK"
    case MKCOL => "MKCOL"
    case MOVE => "MOVE"
    case PROPFIND => "PROPFIND"
    case PROPPATCH => "PROPPATCH"
    case SEARCH => "SEARCH"
    case UNLOCK => "UNLOCK"
    case BIND => "BIND"
    case REBIND => "REBIND"
    case UNBIND => "UNBIND"
    case ACL => "ACL"
    case REPORT => "REPORT"
    case MKACTIVITY => "MKACTIVITY"
    case CHECKOUT => "CHECKOUT"
    case MERGE => "MERGE"
    case MSEARCH => "M-SEARCH"
    case NOTIFY => "NOTIFY"
    case SUBSCRIBE => "SUBSCRIBE"
    case UNSUBSCRIBE => "UNSUBSCRIBE"
    case PATCH => "PATCH"
    case PURGE => "PURGE"
    case MKCALENDAR => "MKCALENDAR"
    case LINK => "LINK"
    case UNLINK => "UNLINK"
    case SOURCE => "SOURCE"
  }

  // The method map, in its order

  const HTTP_METHODS: seq<(Method, string)> := [
    (DELETE, "DELETE"), (GET, "GET"), (HEAD, "HEAD"), (POST, "POST"), (PUT, "PUT"), (CONNECT, "CONNECT"),
    (OPTIONS, "OPTIONS"), (TRACE, "TRACE")]
  const DAV_METHODS: seq<(Method, string)> := [
    (COPY, "COPY"), (LOCK, "LOCK"), (MKCOL, "MKCOL"), (MOVE, "MOVE"), (PROPFIND, "PROPFIND"),
    (PROPPATCH, "PROPPATCH")]
  const MORE_DAV_METHODS: seq<(Method, string)> := [
    (SEARCH, "SEARCH"), (UNLOCK, "UNLOCK"), (BIND, "BIND"), (REBIND, "REBIND"), (UNBIND, "UNBIND"), (ACL, "ACL")]
  const SUBVERSION_METHODS: seq<(Method, string)> := [
    (REPORT, "REPORT"), (MKACTIVITY, "MKACTIVITY"), (CHECKOUT, "CHECKOUT"), (MERGE, "MERGE")]
  const UPNP_METHODS: seq<(Method, string)> := [
    (MSEARCH, "M-SEARCH"), (NOTIFY, "NOTIFY"), (SUBSCRIBE, "SUBSCRIBE"), (UNSUBSCRIBE, "UNSUBSCRIBE")]
  const OTHER_METHODS: seq<(Method, string)> := [
    (PATCH, "PATCH"), (PURGE, "PURGE"), (MKCALENDAR, "MKCALENDAR")]
  const LINK_METHODS: seq<(Method, string)> := [(LINK, "LINK"), (UNLINK, "UNLINK"), (SOURCE, "SOURCE")]
  const METHOD_MAP := HTTP_METHODS + DAV_METHODS + MORE_DAV_METHODS + SUBVERSION_METHODS + UPNP_METHODS + OTHER_METHODS + LINK_METHODS

  lemma Names1()
    ensures forall p | p in HTTP_METHODS :: MethodString(p.0) == p.1
    ensures |HTTP_METHODS| == 8
  {
  }

  lemma Names2()
    ensures forall p | p in DAV_METHODS :: MethodString(p.0) == p.1
    ensures |DAV_METHODS| == 6
  {
  }

  lemma Names3()
    ensures forall p | p in MORE_DAV_METHODS :: MethodString(p.0) == p.1
    ensures |MORE_DAV_METHODS| == 6
  {
  }

  lemma Names4()
    ensures forall p | p in SUBVERSION_METHODS :: MethodString(p.0) == p.1
    ensures |SUBVERSION_METHODS| == 4
  {
  }

  lemma Names5()
    ensures forall p | p in UPNP_METHODS :: MethodString(p.0) == p.1
    ensures |UPNP_METHODS| == 4
  {
  }

  lemma Names6()
    ensures forall p | p in OTHER_METHODS :: MethodString(p.0) == p.1
    ensures |OTHER_METHODS| == 3
  {
  }

  lemma Names7()
    ensures forall p | p in LINK_METHODS :: MethodString(p.0) == p.1
    ensures |LINK_METHODS| == 3
  {
  }

  /** The methods and their names: each method is one of the 34 of the map. */
  lemma MethodNames()
    ensures |METHOD_MAP| == 34 && forall p | p in METHOD_MAP :: MethodString(p.0) == p.1
  {
    Names1();
    Names2();
    Names3();
    Names4();
    Names5();
    Names6();
    Names7();
    hide MethodString, HTTP_METHODS, DAV_METHODS, MORE_DAV_METHODS, SUBVERSION_METHODS, UPNP_METHODS, OTHER_METHODS, LINK_METHODS;
  }

  lemma EveryMethod(m: Method)
    ensures exists p | p in METHOD_MAP :: p.0 == m
  {
    var i := Place(m);
    Placed(m);
    assert METHOD_MAP[i].0 == m;
  }

  /** The number of a method. */
  function Place(m: Method): nat {
    match m
    case DELETE => 0
    case GET => 1
    case HEAD => 2
    case POST => 3
    case PUT => 4
    case CONNECT => 5
    case OPTIONS => 6
    case TRACE => 7
    case COPY => 8
    case LOCK => 9
    case MKCOL => 10
    case MOVE => 11
    case PROPFIND => 12
    case PROPPATCH => 13
    case SEARCH => 14
    case UNLOCK => 15
    case BIND => 16
    case REBIND => 17
    case UNBIND => 18
    case ACL => 19
    case REPORT => 20
    case MKACTIVITY => 21
    case CHECKOUT => 22
    case MERGE => 23
    case MSEARCH => 24
    case NOTIFY => 25
    case SUBSCRIBE => 26
    case UNSUBSCRIBE => 27
    case PATCH => 28
    case PURGE => 29
    case MKCALENDAR => 30
    case LINK => 31
    case UNLINK => 32
    case SOURCE => 33
  }

  lemma Placed(m: Method)
    ensures Place(m) < |METHOD_MAP| && METHOD_MAP[Place(m)].0 == m
  {
  }

  datatype ParserType = REQUEST | RESPONSE | BOTH

  datatype Flags = Flags(
    chunked: bool, connectionKeepAlive: bool, connectionClose: bool, connectionUpgrade: bool,
    trailing: bool, upgrade: bool, skipBody: bool, contentLength: bool)

  const NO_FLAGS := Flags(false, false, false, false, false, false, false, false)

  datatype Errno =
    | OK
    | CB_body
    | INVALID_EOF_STATE | HEADER_OVERFLOW | CLOSED_CONNECTION | INVALID_VERSION | INVALID_STATUS
    | INVALID_METHOD | INVALID_URL | LF_EXPECTED | INVALID_HEADER_TOKEN | INVALID_CONTENT_LENGTH
    | UNEXPECTED_CONTENT_LENGTH | INVALID_CHUNK_SIZE | INVALID_CONSTANT | STRICT

  /** enum state, grouped by the part of the message a state belongs to. */
  datatype State =
    | Dead
    | Start(start: StartState)
    | StatusLine(res: StatusLineState)
    | Target(url: UrlState)
    | Version(ver: VersionState)
    | Fields(field: FieldState)
    | Ending(end: EndingState)
    | Chunk(chunk: ChunkState)
    | Content(content: ContentState)

  datatype StartState = StartReqOrRes | ResOrRespH | StartRes | StartReq | ReqMethod

  datatype StatusLineState =
    | ResH | ResHT | ResHTT | ResHTTP | ResHttpMajor | ResHttpDot | ResHttpMinor | ResHttpEnd
    | ResFirstStatusCode | ResStatusCode | ResStatusStart | ResStatus | ResLineAlmostDone

  datatype UrlState =
    | ReqSpacesBeforeUrl | ReqSchema | ReqSchemaSlash | ReqSchemaSlashSlash
    | ReqServerStart | ReqServer | ReqServerWithAt
    | ReqPath | ReqQueryStringStart | ReqQueryString | ReqFragmentStart | ReqFragment

  datatype VersionState =
    | ReqHttpStart | ReqHttpH | ReqHttpHT | ReqHttpHTT | ReqHttpHTTP
    | ReqHttpMajor | ReqHttpDot | ReqHttpMinor | ReqHttpEnd | ReqLineAlmostDone

  datatype FieldState =
    | FieldStart | InField
    | DiscardWs | DiscardWsAlmostDone | DiscardLws
    | ValueStart | InValue | ValueLws | ValueAlmostDone

  datatype EndingState = HeadersAlmostDone | HeadersDone

  datatype ChunkState =
    | ChunkSizeStart | ChunkSize | ChunkParameters | ChunkSizeAlmostDone
    | ChunkData | ChunkDataAlmostDone | ChunkDataDone

  datatype ContentState = BodyIdentity | BodyIdentityEof | MessageDone

  /** PARSING_HEADER: the states up to s_headers_done, whose bytes count against the header budget. */
  predicate ParsingHeader(s: State) {
    match s
    case Chunk(c) => c.ChunkSizeStart? || c.ChunkSize? || c.ChunkParameters? || c.ChunkSizeAlmostDone?
    case Content(_) => false
    case _ => true
  }

  datatype HeaderState =
    | General | C | CO | CON
    | MatchingConnection | MatchingProxyConnection | MatchingContentLength | MatchingTransferEncoding | MatchingUpgrade
    | Connection | ContentLength | ContentLengthNum | ContentLengthWs | TransferEncoding | Upgrade
    | MatchingTransferEncodingChunked
    | MatchingConnectionTokenStart | MatchingConnectionKeepAlive | MatchingConnectionClose | MatchingConnectionUpgrade
    | MatchingConnectionToken
    | TransferEncodingChunked | ConnectionKeepAlive | ConnectionClose | ConnectionUpgrade

  /** struct http_parser without nread and http_errno, which Execute keeps beside it. */
  datatype Parser = Parser(
    ptype: ParserType, flags: Flags, state: State, hstate: HeaderState, index: nat, lenient: bool,
    length: nat, major: nat, minor: nat, status: nat, verb: Method, upgrade: bool)

  /** The data callbacks: on_header_field, on_header_value, on_url, on_body and on_status. */
  datatype Kind = Field | Value | Url | Body | Status

  /** What on_headers_complete can see of the parser. */
  datatype Head = Head(major: nat, minor: nat, status: nat, verb: Method, length: nat)

  datatype Event =
    | Data(kind: Kind, bytes: string)
    | MessageBegin
    | HeadersComplete(head: Head)
    | ChunkHeader(size: nat)
    | ChunkComplete
    | MessageComplete

  /** http_message_needs_eof */
  predicate NeedsEof(ps: Parser) {
    && !ps.ptype.REQUEST?
    && ps.status / 100 != 1 && ps.status != 204 && ps.status != 304 && !ps.flags.skipBody
    && !ps.flags.chunked && ps.length == ULLONG_MAX
  }

  /** http_should_keep_alive */
  predicate ShouldKeepAlive(ps: Parser) {
    && (if ps.major > 0 && ps.minor > 0 then !ps.flags.connectionClose else ps.flags.connectionKeepAlive)
    && !NeedsEof(ps)
  }

  /** NEW_MESSAGE in strict mode */
  function NewMessage(ps: Parser): State {
    if !ShouldKeepAlive(ps) then Dead
    else if ps.ptype.REQUEST? then Start(StartReq)
    else Start(StartRes)
  }

  /** http_parser_init */
  function Init(t: ParserType): Parser {
    Parser(t, NO_FLAGS, Start(match t case REQUEST => StartReq case RESPONSE => StartRes case BOTH => StartReqOrRes),
           General, 0, false, 0, 0, 0, 0, DELETE, false)
  }
}
