/** The parser on the first line of a message, and on the blank line that ends its head. */
module HeadReading {
  import opened Characters
  import opened Http
  import opened Machine
  import opened Reading
  import opened Methods
  import opened Scan
  import opened Values
  import opened Targets
  import opened HeaderLines

  /** The same callbacks as before, and a parser that has moved on. */
  predicate Moved(c: Config, d: Config, ps: Parser) {
    d.ps == ps && d.calls == c.calls && d.pend == c.pend && !d.skip
  }

  lemma ReadQuiet(c: Config, ch: char, ps: Parser, rest: string) returns (d: Config)
    requires PassOf(c.ps, c.skip, ch) == Pass(ps, Nothing, false, Next)
    ensures Read(c, [ch] + rest) == Read(d, rest) && Moved(c, d, ps)
  {
    hide PassOf, Read;
    d := ReadPass(c, ch, PassOf(c.ps, c.skip, ch), rest);
    assert c.calls + [] == c.calls;
  }

  lemma VersionPassOf(ps: Parser, skip: bool, ch: char)
    requires ps.state.Version?
    ensures PassOf(ps, skip, ch) == VersionPass(ps, ps.state.ver, ch)
  {
    hide StartPass, StatusLinePass, TargetPass, FieldsPass, EndingPass, ChunkPass, ContentPass, VersionPass;
  }

  lemma StatusLinePassOf(ps: Parser, skip: bool, ch: char)
    requires ps.state.StatusLine?
    ensures PassOf(ps, skip, ch) == StatusLinePass(ps, ps.state.res, ch)
  {
    hide StartPass, VersionPass, TargetPass, FieldsPass, EndingPass, ChunkPass, ContentPass, StatusLinePass;
  }

  /** One byte of the version of a request. */
  lemma ReadVersionByte(c: Config, ch: char, rest: string) returns (d: Config)
    requires c.ps.state.Version? && VersionPass(c.ps, c.ps.state.ver, ch).control.Next?
    ensures Read(c, [ch] + rest) == Read(d, rest) && Moved(c, d, VersionPass(c.ps, c.ps.state.ver, ch).ps)
  {
    hide PassOf, Read;
    VersionPassOf(c.ps, c.skip, ch);
    d := ReadQuiet(c, ch, VersionPass(c.ps, c.ps.state.ver, ch).ps, rest);
  }

  lemma ReadProtocol(c: Config, rest: string) returns (d: Config)
    requires c.ps.state == Version(ReqHttpStart)
    ensures Read(c, "HTTP/" + rest) == Read(d, rest) && Moved(c, d, c.ps.(state := Version(ReqHttpMajor)))
  {
    hide Read;
    assert "HTTP/" + rest == ['H'] + (['T'] + (['T'] + (['P'] + (['/'] + rest))));
    d := ReadVersionByte(c, 'H', ['T'] + (['T'] + (['P'] + (['/'] + rest))));
    d := ReadVersionByte(d, 'T', ['T'] + (['P'] + (['/'] + rest)));
    d := ReadVersionByte(d, 'T', ['P'] + (['/'] + rest));
    d := ReadVersionByte(d, 'P', ['/'] + rest);
    d := ReadVersionByte(d, '/', rest);
  }

  /** More spaces before the version are passed over. */
  lemma {:induction false} ReadVersionGap(c: Config, gap: string, rest: string) returns (d: Config)
    requires c.ps.state == Version(ReqHttpStart) && AllSpaces(gap) && !c.skip
    ensures Read(c, gap + rest) == Read(d, rest) && Moved(c, d, c.ps)
    decreases |gap|
  {
    hide Read;
    if gap == "" {
      assert gap + rest == rest;
      d := c;
    } else {
      assert gap + rest == [SP] + (gap[1..] + rest);
      var c1 := ReadVersionByte(c, SP, gap[1..] + rest);
      d := ReadVersionGap(c1, gap[1..], rest);
    }
  }

  /** The version at the end of a request line. */
  lemma ReadVersion(c: Config, gap: string, a: char, b: char, end: string, rest: string) returns (d: Config)
    requires c.ps.state == Version(ReqHttpStart) && AllSpaces(gap) && IsNum(a) && IsNum(b) && IsLineEnd(end) && !c.skip
    ensures Read(c, gap + ("HTTP/" + ([a, '.', b] + (end + rest)))) == Read(d, rest)
    ensures Moved(c, d, c.ps.(state := Fields(FieldStart), major := Digit(a), minor := Digit(b)))
  {
    hide Read;
    var c1 := ReadVersionGap(c, gap, "HTTP/" + ([a, '.', b] + (end + rest)));
    d := ReadDigits(c1, a, b, end, rest);
  }

  lemma ReadDigits(c: Config, a: char, b: char, end: string, rest: string) returns (d: Config)
    requires c.ps.state == Version(ReqHttpStart) && IsNum(a) && IsNum(b) && IsLineEnd(end)
    ensures Read(c, "HTTP/" + ([a, '.', b] + (end + rest))) == Read(d, rest)
    ensures Moved(c, d, c.ps.(state := Fields(FieldStart), major := Digit(a), minor := Digit(b)))
  {
    hide Read;
    var tail := end + rest;
    assert [a, '.', b] + tail == [a] + (['.'] + ([b] + tail));
    d := ReadProtocol(c, [a, '.', b] + tail);
    d := ReadVersionByte(d, a, ['.'] + ([b] + tail));
    d := ReadVersionByte(d, '.', [b] + tail);
    d := ReadVersionByte(d, b, tail);
    d := ReadVersionEnd(d, end, rest);
  }

  lemma ReadVersionEnd(c: Config, end: string, rest: string) returns (d: Config)
    requires c.ps.state == Version(ReqHttpEnd) && IsLineEnd(end)
    ensures Read(c, end + rest) == Read(d, rest) && Moved(c, d, c.ps.(state := Fields(FieldStart)))
  {
    hide Read;
    if end == [LF] {
      d := ReadVersionByte(c, LF, rest);
    } else {
      assert end + rest == [CR] + ([LF] + rest);
      d := ReadVersionByte(c, CR, [LF] + rest);
      d := ReadVersionByte(d, LF, rest);
    }
  }

  // The status line

  lemma ReadStatusByte(c: Config, ch: char, rest: string) returns (d: Config)
    requires c.ps.state.StatusLine?
    requires var r := StatusLinePass(c.ps, c.ps.state.res, ch); r.control.Next? && r.effect == Nothing
    ensures Read(c, [ch] + rest) == Read(d, rest) && Moved(c, d, StatusLinePass(c.ps, c.ps.state.res, ch).ps)
  {
    hide PassOf, Read;
    StatusLinePassOf(c.ps, c.skip, ch);
    assert !StatusLinePass(c.ps, c.ps.state.res, ch).reset;
    d := ReadQuiet(c, ch, StatusLinePass(c.ps, c.ps.state.res, ch).ps, rest);
  }

  lemma StartResPass(ps: Parser, skip: bool)
    requires ps.state == Start(StartRes)
    ensures PassOf(ps, skip, 'H') == Pass(Machine.Fresh(ps).(state := StatusLine(ResH)), Call(MessageBegin), false, Next)
  {
    hide StatusLinePass, TargetPass, VersionPass, FieldsPass, EndingPass, ChunkPass, ContentPass;
  }

  /** The configuration once a message has begun as a response. */
  function ResponseBegun(c: Config): Parser {
    Machine.Fresh(c.ps).(ptype := if c.ps.state == Start(StartRes) then c.ps.ptype else RESPONSE, state := StatusLine(ResHttpMajor))
  }

  lemma ReadResponseStart(c: Config, rest: string) returns (d: Config)
    requires c.ps.state in {Start(StartRes), Start(StartReqOrRes)} && c.pend == None
    ensures Read(c, "HTTP/" + rest) == Read(d, rest)
    ensures d.ps == ResponseBegun(c) && d.calls == c.calls + [MessageBegin] && d.pend == None && !d.skip
  {
    hide Read, PassOf, StatusLinePass;
    var tail := ['T'] + (['P'] + (['/'] + rest));
    assert "HTTP/" + rest == ['H'] + (['T'] + tail);
    if c.ps.state == Start(StartRes) {
      StartResPass(c.ps, c.skip);
      d := ReadPass(c, 'H', PassOf(c.ps, c.skip, 'H'), ['T'] + tail);
      d := ReadFirstT(d, tail);
    } else {
      StartBothPass(c.ps, c.skip, 'H');
      d := ReadPass(c, 'H', PassOf(c.ps, c.skip, 'H'), ['T'] + tail);
      HeadPass(d.ps, d.skip, 'T');
      d := ReadQuiet(d, 'T', d.ps.(ptype := RESPONSE, state := StatusLine(ResHT)), tail);
    }
    d := ReadTp(d, rest);
  }

  lemma ReadFirstT(c: Config, rest: string) returns (d: Config)
    requires c.ps.state == StatusLine(ResH)
    ensures Read(c, ['T'] + rest) == Read(d, rest) && Moved(c, d, c.ps.(state := StatusLine(ResHT)))
  {
    hide Read;
    d := ReadStatusByte(c, 'T', rest);
  }

  lemma ReadTp(c: Config, rest: string) returns (d: Config)
    requires c.ps.state == StatusLine(ResHT)
    ensures Read(c, ['T'] + (['P'] + (['/'] + rest))) == Read(d, rest) && Moved(c, d, c.ps.(state := StatusLine(ResHttpMajor)))
  {
    hide Read;
    d := ReadStatusByte(c, 'T', ['P'] + (['/'] + rest));
    d := ReadStatusByte(d, 'P', ['/'] + rest);
    d := ReadStatusByte(d, '/', rest);
  }

  lemma ReadResponseVersion(c: Config, a: char, b: char, rest: string) returns (d: Config)
    requires c.ps.state == StatusLine(ResHttpMajor) && IsNum(a) && IsNum(b)
    ensures Read(c, [a, '.', b, SP] + rest) == Read(d, rest)
    ensures Moved(c, d, c.ps.(state := StatusLine(ResFirstStatusCode), major := Digit(a), minor := Digit(b)))
  {
    hide Read;
    assert [a, '.', b, SP] + rest == [a] + (['.'] + ([b] + ([SP] + rest)));
    d := ReadStatusByte(c, a, ['.'] + ([b] + ([SP] + rest)));
    d := ReadStatusByte(d, '.', [b] + ([SP] + rest));
    d := ReadStatusByte(d, b, [SP] + rest);
    d := ReadStatusByte(d, SP, rest);
  }

  /** More spaces before the status code are passed over. */
  lemma {:induction false} ReadCodeGap(c: Config, gap: string, rest: string) returns (d: Config)
    requires c.ps.state == StatusLine(ResFirstStatusCode) && AllSpaces(gap) && !c.skip
    ensures Read(c, gap + rest) == Read(d, rest) && Moved(c, d, c.ps)
    decreases |gap|
  {
    hide Read;
    if gap == "" {
      assert gap + rest == rest;
      d := c;
    } else {
      assert gap + rest == [SP] + (gap[1..] + rest);
      var c1 := ReadStatusByte(c, SP, gap[1..] + rest);
      d := ReadCodeGap(c1, gap[1..], rest);
    }
  }

  /** The rest of a status code of which u has been read. */
  lemma {:induction false} ReadCodeRest(c: Config, u: string, t: string, rest: string) returns (d: Config)
    requires c.ps.state == StatusLine(ResStatusCode) && AllDigits(u) && c.ps.status == DecValue(u) && !c.skip
    requires AllDigits(u + t) && DecValue(u + t) <= 999
    ensures Read(c, t + rest) == Read(d, rest) && Moved(c, d, c.ps.(status := DecValue(u + t)))
    decreases |t|
  {
    hide Read, AllDigits;
    if t == "" {
      assert t + rest == rest && u + t == u;
      d := c;
    } else {
      var ch := t[0];
      assert t + rest == [ch] + (t[1..] + rest);
      assert u + t == u + [ch] + t[1..];
      DigitAt(u, t);
      DecSnoc(u, ch);
      DecGrows(u + t, |u| + 1);
      assert (u + t)[..|u| + 1] == u + [ch];
      d := ReadStatusByte(c, ch, t[1..] + rest);
      d := ReadCodeRest(d, u + [ch], t[1..], rest);
    }
  }

  lemma DigitAt(u: string, t: string)
    requires AllDigits(u + t) && t != ""
    ensures IsNum(t[0])
  {
    assert (u + t)[|u|] == t[0];
  }

  lemma ReadCode(c: Config, gap: string, code: string, rest: string) returns (d: Config)
    requires c.ps.state == StatusLine(ResFirstStatusCode) && AllSpaces(gap) && !c.skip
    requires code != "" && AllDigits(code) && DecValue(code) <= 999
    ensures Read(c, gap + (code + rest)) == Read(d, rest)
    ensures Moved(c, d, c.ps.(state := StatusLine(ResStatusCode), status := DecValue(code)))
  {
    hide Read, AllDigits, AllSpaces;
    d := ReadCodeGap(c, gap, code + rest);
    var ch := code[0];
    assert code + rest == [ch] + (code[1..] + rest);
    assert [ch] + code[1..] == code && "" + code == code && "" + [ch] == [ch];
    NoDigits();
    DigitAt("", code);
    DecSnoc("", ch);
    d := ReadStatusByte(d, ch, code[1..] + rest);
    d := ReadCodeRest(d, [ch], code[1..], rest);
  }

  lemma NoDigits()
    ensures AllDigits("") && DecValue("") == 0
  {
  }

  /** The reason of which u has been read. */
  lemma {:induction false} ReadReasonRest(c: Config, u: string, t: string, end: string, rest: string) returns (d: Config)
    requires c.ps.state == StatusLine(ResStatus) && c.pend == Some(u) && CR !in t && LF !in t && IsLineEnd(end)
    ensures Read(c, t + (end + rest)) == Read(d, rest)
    ensures d.ps == c.ps.(state := Fields(FieldStart)) && d.calls == c.calls + [Data(Kind.Status, u + t)] && d.pend == None && !d.skip
    decreases |t|
  {
    hide Read, PassOf;
    if t == "" {
      assert t + (end + rest) == end + rest && u + t == u;
      d := ReadReasonEnd(c, u, end, rest);
    } else {
      var ch := t[0];
      assert ch in t;
      assert t + (end + rest) == [ch] + (t[1..] + (end + rest));
      StatusLinePassOf(c.ps, c.skip, ch);
      d := ReadPass(c, ch, PassOf(c.ps, c.skip, ch), t[1..] + (end + rest));
      assert c.calls + [] == c.calls;
      d := ReadReasonRest(d, u + [ch], t[1..], end, rest);
      assert u + [ch] + t[1..] == u + t;
    }
  }

  lemma ReadReasonEnd(c: Config, u: string, end: string, rest: string) returns (d: Config)
    requires c.ps.state == StatusLine(ResStatus) && c.pend == Some(u) && IsLineEnd(end)
    ensures Read(c, end + rest) == Read(d, rest)
    ensures d.ps == c.ps.(state := Fields(FieldStart)) && d.calls == c.calls + [Data(Kind.Status, u)] && d.pend == None && !d.skip
  {
    hide Read, PassOf;
    StatusLinePassOf(c.ps, c.skip, end[0]);
    if end == [LF] {
      d := ReadPass(c, LF, PassOf(c.ps, c.skip, LF), rest);
    } else {
      assert end + rest == [CR] + ([LF] + rest);
      d := ReadPass(c, CR, PassOf(c.ps, c.skip, CR), [LF] + rest);
      d := ReadStatusByte(d, LF, rest);
    }
  }

  /** The reason, which may be empty. */
  lemma ReadReason(c: Config, t: string, end: string, rest: string) returns (d: Config)
    requires c.ps.state == StatusLine(ResStatusStart) && c.pend == None && CR !in t && LF !in t && IsLineEnd(end)
    ensures Read(c, t + (end + rest)) == Read(d, rest)
    ensures d.ps == c.ps.(state := Fields(FieldStart), index := 0) && d.calls == c.calls + [Data(Kind.Status, t)] && d.pend == None && !d.skip
  {
    hide Read, PassOf;
    if t == "" {
      assert t + (end + rest) == end + rest;
      d := ReadNoReason(c, end, rest);
    } else {
      var ch := t[0];
      assert ch in t;
      assert t + (end + rest) == [ch] + (t[1..] + (end + rest));
      StatusLinePassOf(c.ps, c.skip, ch);
      d := ReadPass(c, ch, PassOf(c.ps, c.skip, ch), t[1..] + (end + rest));
      assert c.calls + [] == c.calls && "" + [ch] == [ch];
      d := ReadReasonRest(d, [ch], t[1..], end, rest);
      assert [ch] + t[1..] == t;
    }
  }

  lemma ReadNoReason(c: Config, end: string, rest: string) returns (d: Config)
    requires c.ps.state == StatusLine(ResStatusStart) && c.pend == None && IsLineEnd(end)
    ensures Read(c, end + rest) == Read(d, rest)
    ensures d.ps == c.ps.(state := Fields(FieldStart), index := 0) && d.calls == c.calls + [Data(Kind.Status, "")] && d.pend == None && !d.skip
  {
    hide Read, PassOf, After;
    var ch := end[0];
    StatusLinePassOf(c.ps, c.skip, ch);
    var c1 := Marked(c, ch);
    StatusLinePassOf(c1.ps, c1.skip, ch);
    if end == [LF] {
      d := ReadTwoPasses(c, LF, rest);
      DeliveredAfter(c1, LF);
    } else {
      assert end + rest == [CR] + ([LF] + rest);
      d := ReadTwoPasses(c, CR, [LF] + rest);
      DeliveredAfter(c1, CR);
      d := ReadStatusByte(d, LF, rest);
    }
  }

  lemma Marked(c: Config, ch: char) returns (d: Config)
    requires PassOf(c.ps, c.skip, ch) == Pass(c.ps.(state := StatusLine(ResStatus), index := 0), SetMark(Kind.Status), false, Again)
    requires c.pend == None && !c.ps.state.Fields?
    ensures d == After(Count(c), ch) && d.ps == c.ps.(state := StatusLine(ResStatus), index := 0)
    ensures d.calls == c.calls && d.pend == Some("") && !d.skip
  {
    hide PassOf;
    assert c.calls + [] == c.calls;
    d := After(Count(c), ch);
  }

  lemma DeliveredAfter(c: Config, ch: char)
    requires c.ps.state == StatusLine(ResStatus) && c.pend == Some("") && IsEol(ch)
    requires PassOf(c.ps, c.skip, ch) == StatusLinePass(c.ps, ResStatus, ch)
    ensures
      var d := After(c, ch);
      && d.ps == StatusLinePass(c.ps, ResStatus, ch).ps && d.calls == c.calls + [Data(Kind.Status, "")] && d.pend == None && !d.skip
  {
    hide PassOf;
  }

  // The first line

  /** The first line of a request, of a request of HTTP/0.9, or of a response. Line ends may come before it (`lead`), and
      more spaces than one between its parts; a version is given by its two digits; a status line may end with its code. */
  datatype Opening =
    | Asks(lead: string, verb: Method, gap: string, url: string, space: string, major: char, minor: char, end: string)
    | AsksOld(lead: string, verb: Method, gap: string, url: string, end: string)
    | Answers(lead: string, major: char, minor: char, gap: string, code: string, reason: Option<string>, end: string)

  function FirstLineText(o: Opening): string {
    match o
    case Asks(_, verb, gap, url, space, a, b, end) =>
      MethodString(verb) + [SP] + (gap + (url + ([SP] + (space + ("HTTP/" + ([a, '.', b] + end))))))
    case AsksOld(_, verb, gap, url, end) => MethodString(verb) + [SP] + (gap + (url + end))
    case Answers(_, a, b, gap, code, reason, end) => "HTTP/" + ([a, '.', b, SP] + (gap + (code + (ReasonText(reason) + end))))
  }

  function ReasonText(reason: Option<string>): string {
    match reason case None => "" case Some(r) => [SP] + r
  }

  function OpeningText(o: Opening): string {
    o.lead + FirstLineText(o)
  }

  predicate AllEol(s: string) {
    forall i | 0 <= i < |s| :: IsEol(s[i])
  }

  /** The first lines the parser takes. */
  predicate GoodOpening(o: Opening) {
    && AllEol(o.lead) && AllSpaces(o.gap) && IsLineEnd(o.end)
    && match o
       case Asks(_, verb, _, url, space, a, b, _) => GoodTarget(verb.CONNECT?, url) && AllSpaces(space) && IsNum(a) && IsNum(b)
       case AsksOld(_, verb, _, url, _) => GoodTarget(verb.CONNECT?, url)
       case Answers(_, a, b, _, code, reason, _) =>
         && IsNum(a) && IsNum(b) && code != "" && AllDigits(code) && DecValue(code) <= 999
         && (reason.Some? ==> CR !in reason.value && LF !in reason.value)
  }

  /** A parser at the start of such a message. */
  predicate MayOpen(c: Config, o: Opening) {
    && c.ps.state in {Start(StartReqOrRes), if o.Answers? then Start(StartRes) else Start(StartReq)}
    && c.pend == None && !c.skip
  }

  /** In s_start_res every line end before a message makes a callback, in the other start states none does. */
  function LeadCalls(s: State, lead: string): seq<Event> {
    if s == Start(StartRes) then seq(|lead|, _ => MessageBegin) else []
  }

  function LineCalls(o: Opening): seq<Event> {
    [MessageBegin,
     match o
     case Answers(_, _, _, _, _, reason, _) => Data(Kind.Status, match reason case None => "" case Some(r) => r)
     case _ => Data(Kind.Url, o.url)]
  }

  function OpeningCalls(s: State, o: Opening): seq<Event> {
    LeadCalls(s, o.lead) + LineCalls(o)
  }

  function DigitOr0(ch: char): nat {
    if IsNum(ch) then Digit(ch) else 0
  }

  /** The message record after a first line. */
  function Opened(ps: Parser, o: Opening): Parser {
    var begun := Machine.Fresh(ps).(state := Fields(FieldStart));
    var unknown := ps.state == Start(StartReqOrRes);
    match o
    case Asks(_, verb, _, _, _, a, b, _) =>
      begun.(verb := verb, ptype := if unknown then REQUEST else ps.ptype, major := DigitOr0(a), minor := DigitOr0(b))
    case AsksOld(_, verb, _, _, _) =>
      begun.(verb := verb, ptype := if unknown then REQUEST else ps.ptype, major := 0, minor := 9)
    case Answers(_, a, b, _, code, _, _) =>
      begun.(status := if AllDigits(code) then DecValue(code) else 0, ptype := if unknown then RESPONSE else ps.ptype,
             major := DigitOr0(a), minor := DigitOr0(b))
  }

  predicate LineRead(c: Config, o: Opening, calls: seq<Event>, d: Config) {
    d.ps == Opened(c.ps, o).(index := d.ps.index) && d.calls == c.calls + calls && d.pend == None && !d.skip
  }

  lemma LeadPass(ps: Parser, skip: bool, ch: char)
    requires ps.state in {Start(StartReqOrRes), Start(StartReq), Start(StartRes)} && IsEol(ch)
    ensures PassOf(ps, skip, ch)
         == if ps.state == Start(StartRes) then Pass(Machine.Fresh(ps), Call(MessageBegin), false, Next) else Stay(ps)
  {
    hide StatusLinePass, TargetPass, VersionPass, FieldsPass, EndingPass, ChunkPass, ContentPass, FirstLetter;
  }

  /** Line ends before a message. */
  lemma {:induction false} ReadLead(c: Config, lead: string, rest: string) returns (d: Config)
    requires c.ps.state in {Start(StartReqOrRes), Start(StartReq), Start(StartRes)} && AllEol(lead) && c.pend == None && !c.skip
    ensures Read(c, lead + rest) == Read(d, rest) && d.calls == c.calls + LeadCalls(c.ps.state, lead) && d.pend == None && !d.skip
    ensures d.ps == if lead != "" && c.ps.state == Start(StartRes) then Machine.Fresh(c.ps) else c.ps
    decreases |lead|
  {
    hide Read, PassOf;
    if lead == "" {
      assert lead + rest == rest;
      assert c.calls + [] == c.calls;
      d := c;
    } else {
      assert lead + rest == [lead[0]] + (lead[1..] + rest);
      LeadPass(c.ps, c.skip, lead[0]);
      var c1 := ReadPass(c, lead[0], PassOf(c.ps, c.skip, lead[0]), lead[1..] + rest);
      d := ReadLead(c1, lead[1..], rest);
      assert c.calls + [] + [] == c.calls;
      assert c.calls + [MessageBegin] + LeadCalls(Start(StartRes), lead[1..]) == c.calls + LeadCalls(Start(StartRes), lead);
    }
  }

  lemma ReadOpening(c: Config, o: Opening, rest: string) returns (d: Config)
    requires MayOpen(c, o) && GoodOpening(o)
    ensures Read(c, OpeningText(o) + rest) == Read(d, rest) && LineRead(c, o, OpeningCalls(c.ps.state, o), d)
  {
    hide Read, FirstLineText, GoodTarget, AllSpaces, AllDigits, IsLineEnd, AllEol;
    assert OpeningText(o) + rest == o.lead + (FirstLineText(o) + rest);
    var c1 := ReadLead(c, o.lead, FirstLineText(o) + rest);
    d := ReadFirstLine(c1, o, rest);
    assert c.calls + LeadCalls(c.ps.state, o.lead) + LineCalls(o) == c.calls + OpeningCalls(c.ps.state, o);
    SameOpened(c.ps, c1.ps, o);
  }

  lemma SameOpened(ps: Parser, ps': Parser, o: Opening)
    requires ps' == ps || ps' == Machine.Fresh(ps)
    ensures Opened(ps', o) == Opened(ps, o)
  {
  }

  lemma ReadFirstLine(c: Config, o: Opening, rest: string) returns (d: Config)
    requires MayOpen(c, o) && GoodOpening(o)
    ensures Read(c, FirstLineText(o) + rest) == Read(d, rest) && LineRead(c, o, LineCalls(o), d)
  {
    hide Read, FirstLineText, LineRead, MayOpen, GoodOpening;
    match o
    case Asks(_, _, _, _, _, _, _, _) => d := ReadRequestLine(c, o, rest);
    case AsksOld(_, _, _, _, _) => d := ReadOldRequestLine(c, o, rest);
    case Answers(_, _, _, _, _, _, _) => d := ReadStatusLine(c, o, rest);
  }

  lemma ReadRequestLine(c: Config, o: Opening, rest: string) returns (d: Config)
    requires MayOpen(c, o) && GoodOpening(o) && o.Asks?
    ensures Read(c, FirstLineText(o) + rest) == Read(d, rest) && LineRead(c, o, LineCalls(o), d)
  {
    hide Read, GoodTarget, MethodString, AllSpaces, AllEol;
    var (m, url, a, b) := (o.verb, o.url, o.major, o.minor);
    var version := o.space + ("HTTP/" + ([a, '.', b] + (o.end + rest)));
    var target := o.gap + (url + ([SP] + version));
    assert FirstLineText(o) + rest == (MethodString(m) + [SP]) + target;
    var c1 := ReadMethod(c, m);
    ReadJoin(c, MethodString(m) + [SP], target);
    var c2 := ReadTargetGap(c1, o.gap, url + ([SP] + version));
    var c3 := ReadGoodTarget(c2, url, version);
    d := ReadVersion(c3, o.space, a, b, o.end, rest);
    assert c.calls + [MessageBegin] + [Data(Kind.Url, url)] == c.calls + LineCalls(o);
  }

  /** A request of HTTP/0.9: the target ends the line. */
  lemma ReadOldRequestLine(c: Config, o: Opening, rest: string) returns (d: Config)
    requires MayOpen(c, o) && GoodOpening(o) && o.AsksOld?
    ensures Read(c, FirstLineText(o) + rest) == Read(d, rest) && LineRead(c, o, LineCalls(o), d)
  {
    hide Read, GoodTarget, MethodString, AllSpaces, AllEol;
    var (m, url) := (o.verb, o.url);
    var target := o.gap + (url + (o.end + rest));
    assert FirstLineText(o) + rest == (MethodString(m) + [SP]) + target;
    var c1 := ReadMethod(c, m);
    ReadJoin(c, MethodString(m) + [SP], target);
    var c2 := ReadTargetGap(c1, o.gap, url + (o.end + rest));
    if o.end == [LF] {
      d := ReadLastTarget(c2, url, LF, rest);
    } else {
      assert url + (o.end + rest) == url + ([CR] + ([LF] + rest));
      var c3 := ReadLastTarget(c2, url, CR, [LF] + rest);
      d := ReadVersionByte(c3, LF, rest);
    }
    assert c.calls + [MessageBegin] + [Data(Kind.Url, url)] == c.calls + LineCalls(o);
  }

  lemma ReadStatusLine(c: Config, o: Opening, rest: string) returns (d: Config)
    requires MayOpen(c, o) && GoodOpening(o) && o.Answers?
    ensures Read(c, FirstLineText(o) + rest) == Read(d, rest) && LineRead(c, o, LineCalls(o), d)
  {
    hide Read, AllDigits, AllSpaces, AllEol;
    var (a, b, code) := (o.major, o.minor, o.code);
    var tail := ReasonText(o.reason) + (o.end + rest);
    assert FirstLineText(o) + rest == "HTTP/" + ([a, '.', b, SP] + (o.gap + (code + tail)));
    var c1 := ReadResponseStart(c, [a, '.', b, SP] + (o.gap + (code + tail)));
    var c2 := ReadResponseVersion(c1, a, b, o.gap + (code + tail));
    var c3 := ReadCode(c2, o.gap, code, tail);
    d := ReadAnyReason(c3, o.reason, o.end, rest);
    assert c.calls + [MessageBegin] + [LineCalls(o)[1]] == c.calls + LineCalls(o);
  }

  /** A reason after a space, or the end of the line after the code. */
  lemma ReadAnyReason(c: Config, reason: Option<string>, end: string, rest: string) returns (d: Config)
    requires c.ps.state == StatusLine(ResStatusCode) && c.pend == None && IsLineEnd(end) && !c.skip
    requires reason.Some? ==> CR !in reason.value && LF !in reason.value
    ensures Read(c, ReasonText(reason) + (end + rest)) == Read(d, rest)
    ensures d.ps == c.ps.(state := Fields(FieldStart), index := 0) && d.pend == None && !d.skip
    ensures d.calls == c.calls + [Data(Kind.Status, match reason case None => "" case Some(r) => r)]
  {
    hide Read;
    match reason
    case Some(r) =>
      assert ReasonText(reason) + (end + rest) == [SP] + (r + (end + rest));
      var c1 := ReadStatusByte(c, SP, r + (end + rest));
      d := ReadReason(c1, r, end, rest);
    case None =>
      assert ReasonText(reason) + (end + rest) == end + rest;
      d := ReadCodeEnd(c, end, rest);
  }

  lemma ReadCodeEnd(c: Config, end: string, rest: string) returns (d: Config)
    requires c.ps.state == StatusLine(ResStatusCode) && c.pend == None && IsLineEnd(end) && !c.skip
    ensures Read(c, end + rest) == Read(d, rest)
    ensures d.ps == c.ps.(state := Fields(FieldStart), index := 0) && d.calls == c.calls + [Data(Kind.Status, "")] && d.pend == None && !d.skip
  {
    hide Read, Passes, Count, PassOf;
    CodeEnds(c, end[0]);
    var c1 := c.(ps := c.ps.(state := StatusLine(ResStatusStart)));
    assert end + rest == [end[0]] + (end[1..] + rest);
    ReadFirst(c, end[0], end[1..] + rest);
    ReadFirst(c1, end[0], end[1..] + rest);
    d := ReadNoReason(c1, end, rest);
  }

  lemma CodeEnds(c: Config, ch: char)
    requires c.ps.state == StatusLine(ResStatusCode) && IsEol(ch) && !c.skip
    ensures Passes(Count(c), ch) == Passes(Count(c.(ps := c.ps.(state := StatusLine(ResStatusStart)))), ch)
  {
    hide PassOf;
    StatusLinePassOf(c.ps, c.skip, ch);
    assert c.calls + [] == c.calls;
    assert After(Count(c), ch) == Count(c.(ps := c.ps.(state := StatusLine(ResStatusStart))));
  }

  // The blank line

  lemma BlankLinePass(ps: Parser, skip: bool, ch: char)
    requires ps.state == Fields(FieldStart) && IsEol(ch)
    ensures PassOf(ps, skip, ch)
         == if ch == CR then To(ps, Ending(HeadersAlmostDone))
            else Pass(ps.(state := Ending(HeadersAlmostDone)), Nothing, false, Again)
  {
    hide StartPass, StatusLinePass, TargetPass, VersionPass, EndingPass, ChunkPass, ContentPass;
  }

  /** The parser before the last byte of a blank line: b before its bytes are looked at, e where CR would have led. */
  lemma ReadBlankLine(c: Config, blank: string) returns (b: Config, e: Config)
    requires c.ps.state == Fields(FieldStart) && IsLineEnd(blank)
    ensures blank[|blank| - 1] == LF && Read(c, blank[..|blank| - 1]) == Some(b) && !InGeneralValue(b.ps) && b.calls == c.calls
    ensures Passes(Count(b), LF) == Passes(e, LF)
    ensures e.ps == c.ps.(state := Ending(HeadersAlmostDone)) && e.calls == c.calls && e.pend == c.pend && !e.skip
    ensures e.n == c.n + |blank| && e.peak == if e.n > c.peak then e.n else c.peak
  {
    hide Read, PassOf;
    assert c.calls + [] == c.calls;
    if blank == [LF] {
      BlankLinePass(c.ps, c.skip, LF);
      b := c;
      assert blank[..0] == "";
      ReadNothing(c);
      e := After(Count(c), LF);
      assert Passes(Count(b), LF) == Passes(e, LF);
    } else {
      BlankLinePass(c.ps, c.skip, CR);
      assert blank[..1] == [CR] + "";
      b := ReadPass(c, CR, To(c.ps, Ending(HeadersAlmostDone)), "");
      ReadNothing(b);
      e := Count(b);
    }
  }
}
