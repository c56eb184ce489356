/** What the parser makes of the head that Packet::Serialize prints. */
module PrintedHead {
  import opened Characters
  import opened Http
  import opened Machine
  import opened Reading
  import opened Targets
  import opened Values
  import opened HeaderLines
  import opened Packets
  import opened HeadReading
  import opened Framing
  import opened Messages

  function BodySize(v: PacketValue): nat {
    if v.body == None then 0 else |v.body.value|
  }

  /** The packets that survive printing and parsing: a version of single digits; a request with a method other than
      CONNECT and a target that can be parsed, or a response with a status code and nothing else; headers that can be
      parsed, without Transfer-Encoding and Upgrade; and a body of 1 to 65535 bytes whose size is the Content-Length,
      or no body and no Content-Length but 0 (which a response needs, unless its status has no body). */
  ghost predicate Sendable(v: PacketValue) {
    var hs := Sorted(v.headers);
    && v.major <= 9 && v.minor <= 9
    && (v.mtype == Request ==> v.verb.Some? && v.verb != Some(CONNECT) && v.status == NO_STATUS && GoodTarget(false, v.url))
    && (v.mtype == Response ==>
          1 <= v.status <= 999 && v.verb == None && v.url == "" && (!NeverBody(v.status) ==> Mentions(hs, CONTENT_LENGTH)))
    && v.mtype != NoType
    && GoodHeaders(false, false, hs) && !Mentions(hs, TRANSFER_ENCODING) && !Mentions(hs, UPGRADE)
    && (v.body.Some? ==> 1 <= |v.body.value| <= 65535 && Mentions(hs, CONTENT_LENGTH))
    && (forall h | h in hs && IsNamed(h, CONTENT_LENGTH) :: IsNumber(h.value, BodySize(v)))
  }

  /** parser->content_length at the end of the headers. */
  ghost function Announced(v: PacketValue): nat {
    if Mentions(Sorted(v.headers), CONTENT_LENGTH) then BodySize(v) else ULLONG_MAX
  }

  function StartCalls(v: PacketValue): seq<Event> {
    [MessageBegin, if v.mtype == Request then Data(Kind.Url, v.url) else Data(Kind.Status, StatusName(v.status))]
  }

  ghost function HeadSeen(v: PacketValue): Head {
    if v.mtype == Request && v.verb.Some? then Head(v.major, v.minor, 0, v.verb.value, Announced(v))
    else Head(v.major, v.minor, if v.status >= 0 then v.status else 0, DELETE, Announced(v))
  }

  /** The callbacks for a head. */
  ghost function HeadCalls(v: PacketValue): seq<Event> {
    StartCalls(v) + HeaderCalls(Sorted(v.headers)) + [HeadersComplete(HeadSeen(v))]
    + if v.body == None then [MessageComplete] else []
  }

  /** The packet as a message. */
  function DigitOf(n: nat): char {
    ('0' as int + n % 10) as char
  }

  function OpeningOf(v: PacketValue): Opening {
    var (a, b) := (DigitOf(v.major), DigitOf(v.minor));
    if v.mtype == Request && v.verb.Some? then Asks("", v.verb.value, "", v.url, "", a, b, [CR, LF])
    else Answers("", a, b, "", IntText(v.status), Some(StatusName(v.status)), [CR, LF])
  }

  ghost function MessageOf(v: PacketValue): Message {
    Message(OpeningOf(v), PrintedLines(Sorted(v.headers)), [CR, LF], Announced(v), match v.body case None => Load.Empty case Some(b) => Plain(b))
  }

  lemma OneDigit(n: nat)
    requires n <= 9
    ensures DecimalText(n) == [DigitOf(n)] && IsNum(DigitOf(n)) && Digit(DigitOf(n)) == n
  {
  }

  lemma GoodStart(v: PacketValue)
    requires Sendable(v)
    ensures GoodOpening(OpeningOf(v)) && StartLine(v) == OpeningText(OpeningOf(v))
  {
    OneDigit(v.major);
    OneDigit(v.minor);
    hide GoodTarget, GoodHeaders, Mentions, Sorted, IsNumber, MethodString, DecimalText, StatusName, Digit, DigitOf, IsNum;
    if v.mtype == Request {
      RequestText(MethodString(v.verb.value), v.url, [DigitOf(v.major)], [DigitOf(v.minor)]);
    } else {
      GoodStatus(v.status);
      ResponseText([DigitOf(v.major)], [DigitOf(v.minor)], DecimalText(v.status), StatusName(v.status));
    }
  }

  lemma RequestText(m: string, url: string, a: string, b: string)
    requires |a| == |b| == 1
    ensures m + [SP] + url + [SP] + ("HTTP/" + a + "." + b) + [CR, LF]
         == "" + (m + [SP] + ("" + (url + ([SP] + ("" + ("HTTP/" + ([a[0], '.', b[0]] + [CR, LF])))))))
  {
  }

  lemma ResponseText(a: string, b: string, code: string, reason: string)
    requires |a| == |b| == 1
    ensures "HTTP/" + a + "." + b + [SP] + code + [SP] + reason + [CR, LF]
         == "" + ("HTTP/" + ([a[0], '.', b[0], SP] + ("" + (code + ([SP] + reason + [CR, LF])))))
  {
  }

  lemma GoodStatus(status: nat)
    requires status <= 999
    ensures
      var (code, reason) := (DecimalText(status), StatusName(status));
      IntText(status) == code && code != "" && AllDigits(code) && DecValue(code) <= 999 && CR !in reason && LF !in reason
  {
    StatusDigits(status);
    hide DecimalText, StatusName, AllDigits, DecValue;
  }

  /** The message record after the start line. */
  lemma RecordOf(v: PacketValue)
    requires Sendable(v)
    ensures
      var r := Record(MessageOf(v));
      && (if v.mtype == Request then r.ptype == REQUEST && v.verb == Some(r.verb) && r.status == 0
          else r.ptype == RESPONSE && r.status == v.status && r.verb == DELETE)
      && HeadOf(r.(length := Announced(v))) == HeadSeen(v) && !r.verb.CONNECT?
      && OpeningCalls(Start(StartReqOrRes), OpeningOf(v)) == StartCalls(v)
  {
    OneDigit(v.major);
    OneDigit(v.minor);
    hide GoodTarget, GoodHeaders, Mentions, Sorted, IsNumber, MethodString, StatusName, Digit, DigitOf, Announced;
    if v.mtype == Response { StatusDigits(v.status); }
  }

  lemma StatusDigits(n: nat)
    ensures AllDigits(DecimalText(n)) && DecValue(DecimalText(n)) == n && IntText(n) == DecimalText(n)
  {
    hide AllDigits, DecValue, DecimalText;
  }

  lemma SaysOf(hs: seq<Header>)
    ensures !Mentions(hs, TRANSFER_ENCODING) ==> !Any(hs, SaysChunked)
    ensures !Mentions(hs, UPGRADE) ==> !Any(hs, SaysUpgrade)
    ensures Any(hs, SaysLength) <==> Mentions(hs, CONTENT_LENGTH)
  {
    SaidLength(hs);
    hide IsNamed;
    if Any(hs, SaysChunked) { var h :| h in hs && SaysChunked(h); assert IsNamed(h, TRANSFER_ENCODING); }
    if Any(hs, SaysUpgrade) { var h :| h in hs && SaysUpgrade(h); assert IsNamed(h, UPGRADE); }
  }

  lemma AnnouncedLength(v: PacketValue)
    requires Sendable(v)
    ensures LengthOf(ULLONG_MAX, Sorted(v.headers), Announced(v))
  {
    var hs := Sorted(v.headers);
    SaysOf(hs);
    hide GoodHeaders, Sorted, IsNumber, IsNamed, GoodTarget, Any;
    if Mentions(hs, CONTENT_LENGTH) {
      var h :| h in hs && IsNamed(h, CONTENT_LENGTH);
      assert SaysLength(h) && IsNumber(h.value, BodySize(v));
    }
  }

  /** What follows the printed head: the body, or nothing. */
  lemma FollowingOf(v: PacketValue)
    requires Sendable(v) && HeadersOf(MessageOf(v).lines) == Sorted(v.headers)
    ensures Following(MessageOf(v)) == if v.body.Some? then Bytes(|v.body.value|) else NoBody
    ensures !Switches(Record(MessageOf(v)), Sorted(v.headers))
  {
    RecordOf(v);
    SaysOf(Sorted(v.headers));
    hide GoodHeaders, Sorted, IsNumber, Mentions, GoodTarget, Any, Record, HeadersOf, HeadOf, HeadSeen, StartCalls, OpeningCalls, OpeningOf;
  }

  lemma GoodPrinted(v: PacketValue)
    requires Sendable(v)
    ensures GoodMessage(MessageOf(v)) && HeadOfText(MessageOf(v)) == HeadText(v) && HeadersOf(MessageOf(v).lines) == Sorted(v.headers)
  {
    SortedKeys(v.headers);
    PrintedText(Sorted(v.headers));
    GoodStart(v);
    AnnouncedLength(v);
    FollowingOf(v);
    PrintedHeadText(v);
    hide GoodTarget, Mentions, Sorted, IsNumber, GoodOpening, HeadText, HeadOfText, LengthOf, Following, GoodHeaders,
         OpeningOf, Announced, HeadersOf, PrintedLines, GoodEnds;
  }

  lemma PrintedHeadText(v: PacketValue)
    requires StartLine(v) == OpeningText(OpeningOf(v)) && LinesText(PrintedLines(Sorted(v.headers))) == HeadersText(Sorted(v.headers))
    ensures HeadOfText(MessageOf(v)) == HeadText(v)
  {
    hide Sorted, OpeningText, StartLine, LinesText, HeadersText, OpeningOf, Announced, PrintedLines;
    var (a, b) := (StartLine(v), HeadersText(Sorted(v.headers)));
    assert a + (b + [CR, LF]) == a + b + [CR, LF];
  }

  lemma TypeOf(v: PacketValue)
    requires Sendable(v)
    ensures v.mtype != NoType
  {
  }

  /** The whole printed head: it is delivered, and the parser then waits for the body, or for the next message. */
  lemma ReadPrinted(c: Config, v: PacketValue) returns (d: Config)
    requires c.ps == Init(BOTH) && c.pend == None && !c.skip && Sendable(v)
    ensures Read(c, HeadText(v)) == Some(d)
    ensures d.calls == c.calls + HeadCalls(v) && d.pend == None && !d.skip && d.n == 0 && !d.ps.upgrade
    ensures v.body.Some? ==> Content.InBody(d) && d.ps.length == |v.body.value|
    ensures v.body == None ==> d.ps.state in {Dead, Start(StartReq), Start(StartRes)}
  {
    var m := MessageOf(v);
    GoodPrinted(v);
    FollowingOf(v);
    RecordOf(v);
    assert MayOpen(c, m.opening) && Settled(c.ps);
    hide Sendable, MayOpen, Settled, GoodMessage, HeadText, HeadOfText, EndsIn, Following, Record, HeadersOf, HeaderCalls, StartCalls,
         OpeningCalls, HeadSeen, HeadOf, Switches, FlagsOf, Read, GoesOn, ToTheEnd, Announced, OpeningOf, PrintedLines;
    var control;
    d, control := ReadHead(c, m);
    PrintedEnds(c, v, d, control);
    EndsRead(c, HeadText(v), d);
  }

  lemma PrintedEnds(c: Config, v: PacketValue, d: Config, control: Control)
    requires c.ps.state == Start(StartReqOrRes) && HeadRead(c, MessageOf(v), d, control) && HeadersOf(MessageOf(v).lines) == Sorted(v.headers)
    requires Following(MessageOf(v)) == (if v.body.Some? then Bytes(|v.body.value|) else NoBody) && v.body != Some("")
    requires OpeningCalls(Start(StartReqOrRes), OpeningOf(v)) == StartCalls(v) && HeadOf(Record(MessageOf(v)).(length := Announced(v))) == HeadSeen(v)
    requires !Switches(Record(MessageOf(v)), Sorted(v.headers))
    ensures control == Control.Next && d.(skip := false) == d
    ensures d.calls == c.calls + HeadCalls(v) && d.pend == None && !d.skip && d.n == 0 && !d.ps.upgrade
    ensures v.body.Some? ==> Content.InBody(d) && d.ps.length == |v.body.value|
    ensures v.body == None ==> d.ps.state in {Dead, Start(StartReq), Start(StartRes)}
  {
    hide Following, Record, HeadersOf, HeaderCalls, StartCalls, OpeningCalls, HeadSeen, HeadOf, Switches, FlagsOf, GoesOn, ToTheEnd, Announced,
         OpeningOf, PrintedLines, Sorted;
    assert HeadCalls(v) == StartCalls(v) + HeaderCalls(Sorted(v.headers))
                           + EndCalls(Following(MessageOf(v)), HeadSeen(v));
  }
}
