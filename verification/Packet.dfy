/** Packet: the message record, its mutators, and the printer Packet::Serialize. */
module Packets {
  import opened Characters
  import opened Http
  import opened Values
  import opened HeaderLines

  datatype MessageType = NoType | Request | Response

  const NO_STATUS := -1

  /** What a Packet holds. Method::INIT is None. */
  datatype PacketValue = PacketValue(
    mtype: MessageType, major: nat, minor: nat, status: int, verb: Option<Method>, url: string,
    headers: map<string, string>, body: Option<string>)

  const NEW_PACKET := PacketValue(NoType, 0, 0, NO_STATUS, None, "", map[], None)

  // The order of std::map

  /** operator< of std::string, or equality. */
  predicate Leq(s: string, t: string) {
    s == "" || (t != "" && (s[0] < t[0] || (s[0] == t[0] && Leq(s[1..], t[1..]))))
  }

  lemma {:induction false} LeqTotal(s: string, t: string)
    ensures Leq(s, t) || Leq(t, s)
    ensures Leq(s, t) && Leq(t, s) ==> s == t
  {
    if s != "" && t != "" {
      LeqTotal(s[1..], t[1..]);
      assert s == [s[0]] + s[1..] && t == [t[0]] + t[1..];
    }
  }

  lemma {:induction false} LeqTransitive(s: string, t: string, u: string)
    requires Leq(s, t) && Leq(t, u)
    ensures Leq(s, u)
  {
    if s != "" && t != "" && u != "" && s[0] == t[0] == u[0] {
      LeqTransitive(s[1..], t[1..], u[1..]);
    }
  }

  /** The order is that of the first differing byte; a proper beginning comes first. */
  lemma {:induction false} FirstDifference(s: string, t: string, k: nat)
    requires k < |s| && k < |t| && s[..k] == t[..k] && s[k] != t[k]
    ensures Leq(s, t) <==> s[k] < t[k]
    decreases k
  {
    if k > 0 {
      assert s[0] == s[..k][0] == t[..k][0] == t[0];
      assert s[1..][..k - 1] == s[..k][1..] == t[..k][1..] == t[1..][..k - 1];
      FirstDifference(s[1..], t[1..], k - 1);
    }
  }

  lemma {:induction false} BeginningFirst(s: string, u: string)
    ensures Leq(s, s + u) && (u != "" ==> !Leq(s + u, s))
    decreases |s|
  {
    if s != "" {
      assert (s + u)[1..] == s[1..] + u;
      BeginningFirst(s[1..], u);
    } else {
      assert s + u == u;
    }
  }

  predicate IsLeast(k: string, keys: set<string>) {
    k in keys && forall j | j in keys :: Leq(k, j)
  }

  lemma {:induction false} HasLeast(keys: set<string>) returns (k: string)
    requires keys != {}
    ensures IsLeast(k, keys)
  {
    var x :| x in keys;
    var rest := keys - {x};
    LeqTotal(x, x);
    if rest == {} {
      assert keys == {x};
      k := x;
    } else {
      var y := HasLeast(rest);
      LeqTotal(x, y);
      k := if Leq(x, y) then x else y;
      forall j | j in keys ensures Leq(k, j) {
        if j != x && Leq(x, y) {
          LeqTransitive(x, y, j);
        }
      }
    }
  }

  lemma LeastUnique(j: string, k: string, keys: set<string>)
    requires IsLeast(j, keys) && IsLeast(k, keys)
    ensures j == k
  {
    LeqTotal(j, k);
  }

  lemma LeastExists(keys: set<string>)
    requires keys != {}
    ensures exists k :: IsLeast(k, keys)
  {
    var k := HasLeast(keys);
  }

  ghost function Least(keys: set<string>): (k: string)
    requires keys != {}
    ensures IsLeast(k, keys)
  {
    LeastExists(keys);
    var k :| IsLeast(k, keys);
    k
  }

  /** The header fields in the order in which they are printed. */
  ghost function Sorted(m: map<string, string>): seq<Header>
    decreases |m|
  {
    if m == map[] then []
    else
      var k := Least(m.Keys);
      assert k in m && |m - {k}| < |m|;
      [Header(k, m[k], [])] + Sorted(m - {k})
  }

  /** What a packet keeps of a header that comes in several lines: the last of them. */
  function LastValue(h: Header): string {
    if h.folds == [] then h.value else h.folds[|h.folds| - 1].text
  }

  /** Adding a list of header fields to a map, as AddHeaderField does. */
  function AddAll(m: map<string, string>, hs: seq<Header>): map<string, string>
    decreases |hs|
  {
    if hs == [] then m else AddAll(m[hs[0].name := LastValue(hs[0])], hs[1..])
  }

  lemma SortedStep(m: map<string, string>)
    requires m != map[]
    ensures
      var k := Least(m.Keys);
      k in m && |m - {k}| < |m| && Sorted(m) == [Header(k, m[k], [])] + Sorted(m - {k})
  {
    var k := Least(m.Keys);
    assert k in m;
  }

  lemma {:induction false} SortedKeys(m: map<string, string>)
    ensures forall h | h in Sorted(m) :: h.name in m && h.value == m[h.name] && h.folds == []
    ensures |Sorted(m)| == |m|
    decreases |m|
  {
    if m != map[] {
      SortedStep(m);
      var k := Least(m.Keys);
      SortedKeys(m - {k});
      assert forall h | h in Sorted(m) :: h == Header(k, m[k], []) || h in Sorted(m - {k});
      assert m.Keys == (m - {k}).Keys + {k};
    }
  }

  /** The header fields are printed in ascending order of their names. */
  lemma {:induction false} SortedAscends(m: map<string, string>, i: nat, j: nat)
    requires i < j < |Sorted(m)|
    ensures Leq(Sorted(m)[i].name, Sorted(m)[j].name) && Sorted(m)[i].name != Sorted(m)[j].name
    decreases |m|
  {
    SortedStep(m);
    var k := Least(m.Keys);
    var rest := m - {k};
    SortedKeys(rest);
    hide Leq;
    assert Sorted(m)[0] == Header(k, m[k], []) && Sorted(m)[j] == Sorted(rest)[j - 1];
    assert Sorted(rest)[j - 1] in Sorted(rest);
    if i > 0 {
      assert Sorted(m)[i] == Sorted(rest)[i - 1];
      SortedAscends(rest, i - 1, j - 1);
    }
  }

  lemma MergeStep(acc: map<string, string>, m: map<string, string>, k: string)
    requires k in m
    ensures acc[k := m[k]] + (m - {k}) == acc + m
  {
  }

  /** Adding the printed fields gives the map back. */
  lemma {:induction false} AddSorted(acc: map<string, string>, m: map<string, string>)
    ensures AddAll(acc, Sorted(m)) == acc + m
    decreases |m|
  {
    if m == map[] {
      assert acc + m == acc;
    } else {
      var k := Least(m.Keys);
      SortedStep(m);
      hide Sorted, Least;
      var hs := Sorted(m);
      assert hs[0] == Header(k, m[k], []) && hs[1..] == Sorted(m - {k});
      AddSorted(acc[k := m[k]], m - {k});
      MergeStep(acc, m, k);
    }
  }

  /** std::to_string of a number that is not negative. */
  function DecimalText(n: nat): (s: string)
    ensures s != "" && AllDigits(s) && DecValue(s) == n
  {
    var last := [('0' as int + n % 10) as char];
    if n < 10 then
      assert last[..0] == "";
      last
    else
      DecSnoc(DecimalText(n / 10), last[0]);
      DecimalText(n / 10) + last
  }

  /** No number begins with a zero that is not its only digit. */
  lemma {:induction false} NoLeadingZero(n: nat)
    ensures n > 0 ==> DecimalText(n)[0] != '0'
    ensures n < 10 ==> DecimalText(n) == ["0123456789"[n]]
    decreases n
  {
    if n >= 10 { NoLeadingZero(n / 10); }
  }

  function IntText(n: int): string {
    if n < 0 then "-" + DecimalText(-n) else DecimalText(n)
  }

  /** The enumerators of status codes are upper-case words. */
  predicate IsStatusName(s: string) {
    s != "" && forall ch | ch in s :: ch == '_' || 'A' <= ch <= 'Z'
  }

  const NO_NAME := "INVALID_STATUS"

  // The names from a code on, up to the next of these functions

  function Names100(code: int): (s: string)
    ensures IsStatusName(s)
  {
    match code
    case 100 => "CONTINUE"
    case 101 => "SWITCHING_PROTOCOLS"
    case 102 => "PROCESSING"
    case _ => NO_NAME
  }

  function Names200(code: int): (s: string)
    ensures IsStatusName(s)
  {
    match code
    case 200 => "OK"
    case 201 => "CREATED"
    case 202 => "ACCEPTED"
    case 203 => "NON_AUTHORITATIVE_INFORMATION"
    case 204 => "NO_CONTENT"
    case 205 => "RESET_CONTENT"
    case 206 => "PARTIAL_CONTENT"
    case 207 => "MULTI_STATUS"
    case 208 => "ALREADY_REPORTED"
    case 226 => "IM_USED"
    case _ => NO_NAME
  }

  function Names300(code: int): (s: string)
    ensures IsStatusName(s)
  {
    match code
    case 300 => "MULTIPLE_CHOICES"
    case 301 => "MOVED_PERMANENTLY"
    case 302 => "FOUND"
    case 303 => "SEE_OTHER"
    case 304 => "NOT_MODIFIED"
    case 305 => "USE_PROXY"
    case 307 => "TEMPORARY_REDIRECT"
    case 308 => "PERMANENT_REDIRECT"
    case _ => NO_NAME
  }

  function Names400(code: int): (s: string)
    ensures IsStatusName(s)
  {
    match code
    case 400 => "BAD_REQUEST"
    case 401 => "UNAUTHORIZED"
    case 402 => "PAYMENT_REQUIRED"
    case 403 => "FORBIDDEN"
    case 404 => "NOT_FOUND"
    case _ => NO_NAME
  }

  function Names405(code: int): (s: string)
    ensures IsStatusName(s)
  {
    match code
    case 405 => "METHOD_NOT_ALLOWED"
    case 406 => "NOT_ACCEPTABLE"
    case 407 => "PROXY_AUTHENTICATION_REQUIRED"
    case 408 => "REQUEST_TIMEOUT"
    case 409 => "CONFLICT"
    case _ => NO_NAME
  }

  function Names410(code: int): (s: string)
    ensures IsStatusName(s)
  {
    match code
    case 410 => "GONE"
    case 411 => "LENGTH_REQUIRED"
    case 412 => "PRECONDITION_FAILED"
    case 413 => "PAYLOAD_TOO_LARGE"
    case 414 => "URI_TOO_LONG"
    case _ => NO_NAME
  }

  function Names415(code: int): (s: string)
    ensures IsStatusName(s)
  {
    match code
    case 415 => "UNSUPPORTED_MEDIA_TYPE"
    case 416 => "RANGE_NOT_SATISFIABLE"
    case 417 => "EXPECTATION_FAILED"
    case 421 => "MISDIRECTED_REQUEST"
    case 422 => "UNPROCESSABLE_ENTITY"
    case 423 => "LOCKED"
    case _ => NO_NAME
  }

  function Names424(code: int): (s: string)
    ensures IsStatusName(s)
  {
    match code
    case 424 => "FAILED_DEPENDENCY"
    case 426 => "UPGRADE_REQUIRED"
    case 428 => "PRECONDITION_REQUIRED"
    case 429 => "TOO_MANY_REQUESTS"
    case _ => NO_NAME
  }

  function Names431(code: int): (s: string)
    ensures IsStatusName(s)
  {
    match code
    case 431 => "REQUEST_HEADER_FIELDS_TOO_LARGE"
    case 451 => "UNAVAILABLE_FOR_LEGAL_REASONS"
    case _ => NO_NAME
  }

  function Names500(code: int): (s: string)
    ensures IsStatusName(s)
  {
    match code
    case 500 => "INTERNAL_SERVER_ERROR"
    case 501 => "NOT_IMPLEMENTED"
    case 502 => "BAD_GATEWAY"
    case 503 => "SERVICE_UNAVAILABLE"
    case 504 => "GATEWAY_TIMEOUT"
    case 505 => "HTTP_VERSION_NOT_SUPPORTED"
    case _ => NO_NAME
  }

  function Names506(code: int): (s: string)
    ensures IsStatusName(s)
  {
    match code
    case 506 => "VARIANT_ALSO_NEGOTIATES"
    case 507 => "INSUFFICIENT_STORAGE"
    case 508 => "LOOP_DETECTED"
    case 510 => "NOT_EXTENDED"
    case 511 => "NETWORK_AUTHENTICATION_REQUIRED"
    case _ => NO_NAME
  }

  /** Packet::GetStatusName: the enumerator of a status code. */
  function StatusName(code: int): (s: string)
    ensures IsStatusName(s)
  {
    if code < 200 then Names100(code)
    else if code < 300 then Names200(code)
    else if code < 400 then Names300(code)
    else if code < 405 then Names400(code)
    else if code < 410 then Names405(code)
    else if code < 415 then Names410(code)
    else if code < 424 then Names415(code)
    else if code < 431 then Names424(code)
    else if code < 500 then Names431(code)
    else if code < 506 then Names500(code)
    else Names506(code)
  }

  // The status map, in its order

  const MAP_100: seq<(int, string)> := [
    (100, "CONTINUE"), (101, "SWITCHING_PROTOCOLS"), (102, "PROCESSING")]
  const MAP_200: seq<(int, string)> := [
    (200, "OK"), (201, "CREATED"), (202, "ACCEPTED"), (203, "NON_AUTHORITATIVE_INFORMATION"), (204, "NO_CONTENT"),
    (205, "RESET_CONTENT"), (206, "PARTIAL_CONTENT"), (207, "MULTI_STATUS"), (208, "ALREADY_REPORTED"),
    (226, "IM_USED")]
  const MAP_300: seq<(int, string)> := [
    (300, "MULTIPLE_CHOICES"), (301, "MOVED_PERMANENTLY"), (302, "FOUND"), (303, "SEE_OTHER"), (304, "NOT_MODIFIED"),
    (305, "USE_PROXY"), (307, "TEMPORARY_REDIRECT"), (308, "PERMANENT_REDIRECT")]
  const MAP_400: seq<(int, string)> := [
    (400, "BAD_REQUEST"), (401, "UNAUTHORIZED"), (402, "PAYMENT_REQUIRED"), (403, "FORBIDDEN"), (404, "NOT_FOUND")]
  const MAP_405: seq<(int, string)> := [
    (405, "METHOD_NOT_ALLOWED"), (406, "NOT_ACCEPTABLE"), (407, "PROXY_AUTHENTICATION_REQUIRED"),
    (408, "REQUEST_TIMEOUT"), (409, "CONFLICT")]
  const MAP_410: seq<(int, string)> := [
    (410, "GONE"), (411, "LENGTH_REQUIRED"), (412, "PRECONDITION_FAILED"), (413, "PAYLOAD_TOO_LARGE"),
    (414, "URI_TOO_LONG")]
  const MAP_415: seq<(int, string)> := [
    (415, "UNSUPPORTED_MEDIA_TYPE"), (416, "RANGE_NOT_SATISFIABLE"), (417, "EXPECTATION_FAILED"),
    (421, "MISDIRECTED_REQUEST"), (422, "UNPROCESSABLE_ENTITY"), (423, "LOCKED")]
  const MAP_424: seq<(int, string)> := [
    (424, "FAILED_DEPENDENCY"), (426, "UPGRADE_REQUIRED"), (428, "PRECONDITION_REQUIRED"), (429, "TOO_MANY_REQUESTS")]
  const MAP_431: seq<(int, string)> := [
    (431, "REQUEST_HEADER_FIELDS_TOO_LARGE"), (451, "UNAVAILABLE_FOR_LEGAL_REASONS")]
  const MAP_500: seq<(int, string)> := [
    (500, "INTERNAL_SERVER_ERROR"), (501, "NOT_IMPLEMENTED"), (502, "BAD_GATEWAY"), (503, "SERVICE_UNAVAILABLE"),
    (504, "GATEWAY_TIMEOUT"), (505, "HTTP_VERSION_NOT_SUPPORTED")]
  const MAP_506: seq<(int, string)> := [
    (506, "VARIANT_ALSO_NEGOTIATES"), (507, "INSUFFICIENT_STORAGE"), (508, "LOOP_DETECTED"), (510, "NOT_EXTENDED"),
    (511, "NETWORK_AUTHENTICATION_REQUIRED")]

  const STATUS_MAP := MAP_100 + MAP_200 + MAP_300 + MAP_400 + MAP_405 + MAP_410 + MAP_415 + MAP_424 + MAP_431 + MAP_500 + MAP_506

  /** The names are those of the map, and every other code is invalid. */
  lemma StatusNameExact(code: int)
    ensures forall p | p in STATUS_MAP && p.0 == code :: StatusName(code) == p.1
    ensures (forall p | p in STATUS_MAP :: p.0 != code) ==> StatusName(code) == "INVALID_STATUS"
  {
    Map100(code);
    Map200(code);
    Map300(code);
    Map400(code);
    Map405(code);
    Map410(code);
    Map415(code);
    Map424(code);
    Map431(code);
    Map500(code);
    Map506(code);
    hide MAP_100, MAP_200, MAP_300, MAP_400, MAP_405, MAP_410, MAP_415, MAP_424, MAP_431, MAP_500, MAP_506, Names100, Names200, Names300, Names400, Names405, Names410, Names415, Names424, Names431, Names500, Names506;
  }

  lemma Map100(code: int)
    ensures forall p | p in MAP_100 :: 100 <= p.0 < 200 && (p.0 == code ==> Names100(code) == p.1)
    ensures (forall p | p in MAP_100 :: p.0 != code) && code < 200 ==> Names100(code) == "INVALID_STATUS"
  {
  }

  lemma Map200(code: int)
    ensures forall p | p in MAP_200 :: 200 <= p.0 < 300 && (p.0 == code ==> Names200(code) == p.1)
    ensures (forall p | p in MAP_200 :: p.0 != code) && 200 <= code < 300 ==> Names200(code) == "INVALID_STATUS"
  {
  }

  lemma Map300(code: int)
    ensures forall p | p in MAP_300 :: 300 <= p.0 < 400 && (p.0 == code ==> Names300(code) == p.1)
    ensures (forall p | p in MAP_300 :: p.0 != code) && 300 <= code < 400 ==> Names300(code) == "INVALID_STATUS"
  {
  }

  lemma Map400(code: int)
    ensures forall p | p in MAP_400 :: 400 <= p.0 < 405 && (p.0 == code ==> Names400(code) == p.1)
    ensures (forall p | p in MAP_400 :: p.0 != code) && 400 <= code < 405 ==> Names400(code) == "INVALID_STATUS"
  {
  }

  lemma Map405(code: int)
    ensures forall p | p in MAP_405 :: 405 <= p.0 < 410 && (p.0 == code ==> Names405(code) == p.1)
    ensures (forall p | p in MAP_405 :: p.0 != code) && 405 <= code < 410 ==> Names405(code) == "INVALID_STATUS"
  {
  }

  lemma Map410(code: int)
    ensures forall p | p in MAP_410 :: 410 <= p.0 < 415 && (p.0 == code ==> Names410(code) == p.1)
    ensures (forall p | p in MAP_410 :: p.0 != code) && 410 <= code < 415 ==> Names410(code) == "INVALID_STATUS"
  {
  }

  lemma Map415(code: int)
    ensures forall p | p in MAP_415 :: 415 <= p.0 < 424 && (p.0 == code ==> Names415(code) == p.1)
    ensures (forall p | p in MAP_415 :: p.0 != code) && 415 <= code < 424 ==> Names415(code) == "INVALID_STATUS"
  {
  }

  lemma Map424(code: int)
    ensures forall p | p in MAP_424 :: 424 <= p.0 < 431 && (p.0 == code ==> Names424(code) == p.1)
    ensures (forall p | p in MAP_424 :: p.0 != code) && 424 <= code < 431 ==> Names424(code) == "INVALID_STATUS"
  {
  }

  lemma Map431(code: int)
    ensures forall p | p in MAP_431 :: 431 <= p.0 < 500 && (p.0 == code ==> Names431(code) == p.1)
    ensures (forall p | p in MAP_431 :: p.0 != code) && 431 <= code < 500 ==> Names431(code) == "INVALID_STATUS"
  {
  }

  lemma Map500(code: int)
    ensures forall p | p in MAP_500 :: 500 <= p.0 < 506 && (p.0 == code ==> Names500(code) == p.1)
    ensures (forall p | p in MAP_500 :: p.0 != code) && 500 <= code < 506 ==> Names500(code) == "INVALID_STATUS"
  {
  }

  lemma Map506(code: int)
    ensures forall p | p in MAP_506 :: 506 <= p.0 < 600 && (p.0 == code ==> Names506(code) == p.1)
    ensures (forall p | p in MAP_506 :: p.0 != code) && 506 <= code ==> Names506(code) == "INVALID_STATUS"
  {
  }

  /** http_method_str */
  function VerbText(verb: Option<Method>): string {
    match verb
    case None => "<unknown>"
    case Some(m) => MethodString(m)
  }

  function VersionText(v: PacketValue): string {
    "HTTP/" + DecimalText(v.major) + "." + DecimalText(v.minor)
  }

  function StartLine(v: PacketValue): string {
    match v.mtype
    case NoType => [CR, LF]
    case Request => VerbText(v.verb) + [SP] + v.url + [SP] + VersionText(v) + [CR, LF]
    case Response => VersionText(v) + [SP] + IntText(v.status) + [SP] + StatusName(v.status) + [CR, LF]
  }

  ghost function HeadText(v: PacketValue): string {
    StartLine(v) + HeadersText(Sorted(v.headers)) + [CR, LF]
  }

  function BodyText(v: PacketValue): string {
    match v.body case None => "" case Some(b) => b
  }

  ghost function Printed(v: PacketValue): string {
    HeadText(v) + BodyText(v)
  }

  /** What a response without header fields and body prints: version, code, and the name of the code. */
  lemma PrintedResponse(p: (int, string), major: nat, minor: nat)
    requires p in STATUS_MAP && major < 10 && minor < 10 && 0 < p.0
    ensures
      Printed(PacketValue(Response, major, minor, p.0, None, "", map[], None))
   == "HTTP/" + ["0123456789"[major]] + "." + ["0123456789"[minor]] + " " + DecimalText(p.0) + " " + p.1 + "\r\n" + "\r\n"
  {
    hide STATUS_MAP, StatusName, DecimalText;
    StatusNameExact(p.0);
    NoLeadingZero(major);
    NoLeadingZero(minor);
    NothingSorted();
  }

  lemma PrintedOk()
    ensures Printed(PacketValue(Response, 1, 1, 200, None, "", map[], None)) == "HTTP/1.1 200 OK\r\n\r\n"
  {
    hide STATUS_MAP, Printed, DecimalText;
    InMap();
    TwoHundred();
    PrintedResponse((200, "OK"), 1, 1);
    OkBytes();
  }

  lemma OkBytes()
    ensures "HTTP/" + ["0123456789"[1]] + "." + ["0123456789"[1]] == "HTTP/1.1"
    ensures "HTTP/1.1" + " " + "200" + " " + "OK" + "\r\n" + "\r\n" == "HTTP/1.1 200 OK\r\n\r\n"
  {
    assert "HTTP/1.1" + " " + "200" == "HTTP/1.1 200";
    assert "HTTP/1.1 200" + " " + "OK" == "HTTP/1.1 200 OK";
    assert "HTTP/1.1 200 OK" + "\r\n" == "HTTP/1.1 200 OK\r\n";
  }

  lemma InMap()
    ensures (200, "OK") in STATUS_MAP
  {
    assert MAP_200[0] == (200, "OK");
  }

  lemma TwoHundred()
    ensures DecimalText(200) == "200"
  {
    assert DecimalText(2) == "2" && DecimalText(20) == "20";
  }

  /** What a request with one header field and a body prints. */
  lemma PrintedRequest(verb: Method, url: string, name: string, value: string, body: string)
    ensures
      Printed(PacketValue(Request, 1, 1, NO_STATUS, Some(verb), url, map[name := value], Some(body)))
   == MethodString(verb) + " " + url + " " + "HTTP/1.1" + "\r\n" + (name + ":" + " " + value + "\r\n") + "\r\n" + body
  {
    hide MethodString, Sorted, DecimalText;
    OneSorted(name, value);
    OneField(name, value);
    NoLeadingZero(1);
    VersionOne();
    hide HeadersText;
  }

  lemma VersionOne()
    ensures "HTTP/" + "1" + "." + "1" == "HTTP/1.1"
  {
  }

  lemma OneField(name: string, value: string)
    ensures HeadersText([Header(name, value, [])]) == name + ":" + " " + value + "\r\n"
  {
    var hs := [Header(name, value, [])];
    assert hs[1..] == [];
    assert HeaderText(name, value) + "" == HeaderText(name, value);
  }

  /** A request without a method, and a response without a status. */
  lemma PrintedUnknown()
    ensures VerbText(None) == "<unknown>" && IntText(NO_STATUS) == "-1"
  {
    NoLeadingZero(1);
  }

  lemma OneSorted(name: string, value: string)
    ensures Sorted(map[name := value]) == [Header(name, value, [])]
  {
    var m := map[name := value];
    SortedStep(m);
    assert m - {name} == map[];
    NothingSorted();
  }

  lemma NothingSorted()
    ensures Sorted(map[]) == [] && HeadersText([]) == ""
  {
  }

  /** What Serialize does: a null buffer for a packet that was never initialised, and an exception of
      std::vector::at for an empty body. */
  datatype Printout = NoBuffer | OutOfRange | Buffer(bytes: string)

  class Packet {
    var major: nat
    var minor: nat
    var status: int
    var verb: Option<Method>
    var mtype: MessageType
    var url: string
    var headers: map<string, string>
    var body: array?<char>

    constructor ()
      ensures Value() == NEW_PACKET && body == null
    {
      major, minor, status, verb, mtype, url, headers, body := 0, 0, NO_STATUS, None, NoType, "", map[], null;
    }

    ghost function Value(): PacketValue
      reads this, body
    {
      PacketValue(mtype, major, minor, status, verb, url, headers, if body == null then None else Some(body[..]))
    }

    /** The packet as an observer finds it. */
    method Copy() returns (v: PacketValue)
      ensures v == Value()
    {
      v := PacketValue(mtype, major, minor, status, verb, url, headers, if body == null then None else Some(body[..]));
    }

    method Init(major: nat, minor: nat, status: int, verb: Option<Method>, mtype: MessageType)
      modifies this`major, this`minor, this`status, this`verb, this`mtype
      ensures Value() == old(Value()).(mtype := mtype, major := major, minor := minor, status := status, verb := verb)
    {
      this.major, this.minor, this.status, this.verb, this.mtype := major, minor, status, verb, mtype;
    }

    method SetUrl(url: string)
      modifies this`url
      ensures Value() == old(Value()).(url := url)
    {
      this.url := url;
    }

    method AddHeaderField(key: string, value: string)
      modifies this`headers
      ensures Value() == old(Value()).(headers := old(headers)[key := value])
    {
      headers := headers[key := value];
    }

    method RemoveHeaderField(key: string)
      modifies this`headers
      ensures Value() == old(Value()).(headers := old(headers) - {key})
    {
      headers := headers - {key};
    }

    method AssignBody(body: array?<char>)
      modifies this`body
      ensures this.body == body
      ensures Value() == old(Value()).(body := if body == null then None else Some(body[..]))
    {
      this.body := body;
    }

    /** The loop over the header map, in the order of its keys. */
    method HeaderLines() returns (text: string)
      ensures text == HeadersText(Sorted(headers)) + [CR, LF]
    {
      hide Sorted, Leq, HeaderText;
      text := "";
      var rest := headers;
      NoHeaders();
      while rest != map[]
        invariant text + HeadersText(Sorted(rest)) == HeadersText(Sorted(headers))
        decreases |rest|
      {
        SortedStep(rest);
        var k :| k in rest.Keys && forall j | j in rest.Keys :: Leq(k, j);
        LeastUnique(k, Least(rest.Keys), rest.Keys);
        NextLine(text, k, rest[k], Sorted(rest - {k}));
        text := text + k + ":" + [SP] + rest[k] + [CR, LF];
        rest := rest - {k};
      }
      assert text + "" == text;
      text := text + [CR, LF];
    }

    /** Packet::Serialize */
    method Serialize() returns (r: Printout)
      requires |Printed(Value())| < 0x1_0000_0000
      ensures r == if mtype == NoType then NoBuffer else if body != null && body.Length == 0 then OutOfRange
                   else Buffer(Printed(Value()))
    {
      hide Sorted, StatusName, IntText, DecimalText, HeadersText;
      if mtype == NoType {
        return NoBuffer;
      }
      var version := "HTTP/" + DecimalText(major) + "." + DecimalText(minor);
      var start;
      if mtype == Request {
        start := VerbText(verb) + [SP] + url + [SP] + version;
      } else {
        start := version + [SP] + IntText(status) + [SP] + StatusName(status);
      }
      start := start + [CR, LF];
      assert start == StartLine(Value());
      var lines := HeaderLines();
      if body != null && body.Length == 0 {
        return OutOfRange;
      }
      ghost var v := Value();
      hide StartLine;
      var buffer := Assemble(start, lines);
      assert start + lines == HeadText(v) by {
        assert start + (HeadersText(Sorted(headers)) + [CR, LF]) == start + HeadersText(Sorted(headers)) + [CR, LF];
      }
      r := Buffer(buffer[..]);
    }

    /** The buffer of Serialize, filled piece by piece. */
    method Assemble(start: string, lines: string) returns (buffer: array<char>)
      requires body != null ==> body.Length > 0
      ensures fresh(buffer) && buffer[..] == start + lines + BodyText(Value())
    {
      var size := |start| + |lines| + (if body == null then 0 else body.Length);
      buffer := new char[size](_ => '\0');
      var i := 0;
      CopyInto(buffer, i, start);
      i := i + |start|;
      assert buffer[..i] == start;
      CopyInto(buffer, i, lines);
      i := i + |lines|;
      assert buffer[..i] == start + lines;
      if body != null {
        CopyInto(buffer, i, body[..]);
      }
    }
  }

  lemma NoHeaders()
    ensures Sorted(map[]) == []
  {
  }

  lemma NextLine(text: string, k: string, value: string, hs: seq<Header>)
    ensures text + HeadersText([Header(k, value, [])] + hs) == (text + k + ":" + [SP] + value + [CR, LF]) + HeadersText(hs)
  {
    var all := [Header(k, value, [])] + hs;
    assert all[0] == Header(k, value, []) && all[1..] == hs;
    assert text + (HeaderText(k, value) + HeadersText(hs)) == text + HeaderText(k, value) + HeadersText(hs);
    assert text + HeaderText(k, value) == text + k + ":" + [SP] + value + [CR, LF];
  }

  /** memcpy into a buffer. */
  method CopyInto(buffer: array<char>, at: nat, source: string)
    requires at + |source| <= buffer.Length
    modifies buffer
    ensures buffer[..] == old(buffer[..at]) + source + old(buffer[at + |source|..])
  {
    for k := 0 to |source|
      invariant buffer[..at + k] == old(buffer[..at]) + source[..k]
      invariant buffer[at + k..] == old(buffer[at + k..])
    {
      buffer[at + k] := source[k];
    }
    assert buffer[..] == buffer[..at + |source|] + buffer[at + |source|..];
  }
}
