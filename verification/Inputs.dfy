/** Inputs that reach what the project says of unusual streams, from a parser that has been created just now. */
module Inputs {
  import opened Characters
  import opened Http
  import opened Machine
  import opened Scan
  import opened Split
  import opened Budget
  import opened Reading
  import opened UrlGrammar
  import opened Names
  import opened Values
  import opened Connections
  import opened HeaderLines
  import opened HeadReading
  import opened Framing
  import opened Messages
  import opened Grammar
  import opened Assembling
  import opened PacketParsers
  import opened Sessions

  /** GET / HTTP/1.1 */
  const ASKED := Asks("", GET, "", "/", "", '1', '1', [CR, LF])
  const LINE := OpeningText(ASKED)

  lemma AskedFacts()
    ensures GoodOpening(ASKED) && |LINE| == 16 && LF in LINE
    ensures Opened(Init(BOTH), ASKED).ptype == REQUEST && Opened(Init(BOTH), ASKED).verb == GET
    ensures Opened(Init(BOTH), ASKED).major == Opened(Init(BOTH), ASKED).minor == 1
  {
    assert UrlScan(false, "") == Some(NO_URL);
    assert "/"[..0] == "";
    assert MethodString(GET) == "GET";
    assert [CR, LF][1] == LF;
  }

  // The one way in which cutting a stream matters

  const FIRST := LINE + "A: bc"
  const SECOND := ['\U{1}'] + "d\r\n\r\n"

  /** The parser inside the value, after "b" has been read. */
  lemma ReadUpToB(c: Config) returns (d: Config)
    requires c == Initial(BOTH)
    ensures Read(c, LINE + "A: b") == Some(d)
    ensures InGeneralValue(d.ps) && Collects(d, "b") && !d.skip && d.calls == LineCalls(ASKED) + [Data(Kind.Field, "A")]
    ensures d.ps == Opened(Init(BOTH), ASKED).(state := Fields(InValue), index := 0, hstate := General)
  {
    hide Read, GoodOpening;
    AskedFacts();
    OpenedFacts(c.ps, ASKED);
    assert MayOpen(c, ASKED);
    var c1 := ReadOpening(c, ASKED, "A: b");
    d := ReadNameAndB(c1);
    assert [] + LineCalls(ASKED) == LineCalls(ASKED);
  }

  lemma ReadNameAndB(c: Config) returns (d: Config)
    requires c.ps.state == Fields(FieldStart) && c.pend == None
    ensures Read(c, "A: b") == Some(d)
    ensures InGeneralValue(d.ps) && Collects(d, "b") && !d.skip && d.calls == c.calls + [Data(Kind.Field, "A")]
    ensures d.ps == c.ps.(state := Fields(InValue), index := 0, hstate := General)
  {
    hide Read;
    NameOfA();
    NameExact(c, "A");
    var c1 := Read(c, "A" + ":").value;
    assert "A: b" == ("A" + ":") + ([SP] + "b");
    ReadJoin(c, "A" + ":", [SP] + "b");
    var c2 := ReadGap(c1, [SP], "b");
    assert "b" == ['b'] + "";
    var c3 := ReadFirstValueByte(c2, 'b', "");
    ReadNothing(c3);
    d := c3;
  }

  lemma NameOfA()
    ensures AllTokens("A") && NameClass(LowerCase("A")).General?
  {
    assert LowerCase("A") == "a";
    ShortNames("a");
    NameMeaning("a");
  }

  /** One more byte of the value, whatever it is when the byte before it was jumped over. */
  lemma OneMoreByte(d: Config, skip: bool, ch: char, u: string)
    requires InGeneralValue(d.ps) && Collects(d, u) && !IsEol(ch) && (skip || d.ps.lenient || IsHeaderChar(ch))
    ensures
      var (e, control) := Passes(Count(d.(skip := skip)), ch);
      control.Next? && e.skip && e.ps == d.ps && Collects(e, u + [ch])
  {
    var c := Count(d.(skip := skip));
    GeneralByte(c, ch);
    hide PassOf;
    assert Passes(c, ch) == (After(c, ch), Control.Next);
  }

  /** What follows the illegal byte. */
  lemma ReadTheRest(d: Config, u: string) returns (e: Config)
    requires InGeneralValue(d.ps) && Collects(d, u) && !d.skip && !d.ps.lenient
    requires d.ps.flags == NO_FLAGS && d.ps.length == ULLONG_MAX && d.ps.ptype == REQUEST && d.ps.verb == GET
    ensures Read(d, "d\r\n\r\n") == Some(e)
  {
    hide Read;
    assert "d\r\n\r\n" == "d" + ([CR, LF] + [CR, LF]);
    ReadGeneralRest(d, u, "d");
    ReadJoin(d, "d", [CR, LF] + [CR, LF]);
    var d1 := Read(d, "d").value;
    var b := ReadEitherEnd(d1, u + "d", [CR, LF], [CR, LF]);
    var d2 := NextHeader(b);
    var d3, control := HeadDecision(d2, [], [CR, LF]);
    ReadyReads(b, d2, [CR, LF]);
    assert LinesText([]) + [CR, LF] == [CR, LF];
    NoHeaders(d2.ps, d3.ps.length);
    EndsRead(b, [CR, LF], d3);
    e := d3.(skip := false);
  }

  lemma NoHeaders(ps: Parser, n: nat)
    requires ps.ptype == REQUEST && ps.verb == GET
    ensures HeadersOf([]) == [] && BodyOf(ps, [], n) == NoBody && Follows(ps, [], n, NoBody)
  {
  }

  /** Delivered in two buffers, the second of which begins with the illegal byte, the stream is rejected at that byte;
      delivered in one, it is taken to its end. */
  lemma ExposureReached()
    ensures
      var c := Initial(BOTH);
      var first := RunBuffer(c, FIRST);
      && first.outcome == Completed && first.c.skip && InGeneralValue(first.c.ps)
      && RunBuffer(first.c, SECOND).outcome == Failed(INVALID_HEADER_TOKEN) && RunBuffer(first.c, SECOND).at == 0
      && RunBuffer(c, FIRST + SECOND).outcome == Completed
  {
    AskedFacts();
    OpenedFacts(Init(BOTH), ASKED);
    hide Read, Run, Passes, LINE, Opened, GoodOpening;
    var c := Initial(BOTH);
    assert Begin(c) == c;
    var d := ReadUpToB(c);
    var whole := FIRST + SECOND;
    var k := |LINE| + 4;
    Cuts();
    FirstBuffer(c, d);
    var skip := RunReads(c, whole, 0, k);
    OneMoreByte(d, skip, 'c', "b");
    var d1 := Passes(Count(d.(skip := skip)), 'c').0;
    OneStep(d.(skip := skip), whole, k);
    OneMoreByte(d1, true, '\U{1}', "b" + "c");
    assert d1.(skip := true) == d1;
    var d2 := Passes(Count(d1), '\U{1}').0;
    OneStep(d1, whole, k + 1);
    var e := ReadTheRest(d2.(skip := false), "b" + "c" + ['\U{1}']);
    assert whole[k + 2..|whole|] == whole[k + 2..];
    var more := RunReads(d2, whole, k + 2, |whole|);
    RunEnds(e.(skip := more), whole);
  }

  lemma RunEnds(c: Config, data: string)
    ensures Run(c, data, |data|).outcome == Completed
  {
  }

  lemma OneStep(c: Config, data: string, p: nat)
    requires p < |data| && Passes(Count(c), data[p]).1.Next?
    ensures Run(c, data, p) == Run(Passes(Count(c), data[p]).0, data, p + 1)
  {
    hide Passes, Count;
  }

  lemma Cuts()
    ensures
      var (whole, k) := (FIRST + SECOND, |LINE| + 4);
      && |FIRST| == k + 1 && |whole| == k + 7
      && whole[0..k] == FIRST[0..k] == LINE + "A: b"
      && FIRST[k] == whole[k] == 'c' && whole[k + 1] == '\U{1}' && whole[k + 2..] == "d\r\n\r\n"
      && SECOND[0] == '\U{1}'
  {
    hide LINE;
  }

  lemma FirstBuffer(c: Config, d: Config)
    requires c == Initial(BOTH) && Read(c, LINE + "A: b") == Some(d)
    requires InGeneralValue(d.ps) && !d.ps.lenient && Collects(d, "b") && !d.skip
    ensures
      var first := RunBuffer(c, FIRST);
      && first.outcome == Completed && first.c.skip && InGeneralValue(first.c.ps)
      && RunBuffer(first.c, SECOND).outcome == Failed(INVALID_HEADER_TOKEN) && RunBuffer(first.c, SECOND).at == 0
  {
    hide Read, Run, Passes, LINE;
    assert Begin(c) == c;
    var k := |LINE| + 4;
    Cuts();
    var skip := RunReads(c, FIRST, 0, k);
    OneMoreByte(d, skip, 'c', "b");
    Content.LastStep(d.(skip := skip), FIRST, k);
    SplitBuffer(c, FIRST, SECOND);
  }

  // A silent overflow

  /** The first call of a session. */
  const BEGUN := LINE + "A: b"

  /** The session after it. */
  function AfterBegun(): Waiting {
    Waiting(Handled(FRESH, BEGUN), NextStart(FRESH.c, BEGUN), Sound(FRESH, BEGUN))
  }

  /** The run of the first call. */
  lemma BegunRun()
    ensures
      var r := RunBuffer(FRESH.c, BEGUN);
      && r.outcome == Completed && r.at == |BEGUN| && r.c.peak < HTTP_MAX_HEADER_SIZE && r.c.n < 100 && InGeneralValue(r.c.ps)
      && r.c.calls == LineCalls(ASKED) + [Data(Kind.Field, "A")] + [Data(Kind.Value, "b")]
  {
    AskedFacts();
    hide Read, Opened, GoodOpening, LINE, RunBuffer, OpeningCalls;
    var c := FRESH.c;
    assert Begin(c) == c;
    var d := ReadUpToB(c);
    ReadPeak(c, BEGUN);
    var skip := RunWhole(c, BEGUN);
    assert RunBuffer(c, BEGUN).c == End(d.(skip := skip));
  }

  /** The first call waits for more, inside a value that the parser does not know. */
  lemma BegunWaits()
    ensures Handled(FRESH, BEGUN).status == StatusPartReceived && Sound(FRESH, BEGUN)
    ensures
      var c := NextStart(FRESH.c, BEGUN);
      InGeneralValue(c.ps) && c.n < HTTP_MAX_HEADER_SIZE && c.calls == []
  {
    BegunRun();
    assert BEGUN != "";
    hide LINE, BEGUN, RunBuffer, Spend, HandleAll, Begin;
    CallWithin(FRESH.c, BEGUN);
    BegunSpending();
    HandleMore(FRESH.a.(status := StatusPartReceived), RunBuffer(FRESH.c, BEGUN).c.calls);
  }

  lemma BegunSpending()
    ensures Spend(Begin(FRESH.c), BEGUN, 0).Within? ==> Spend(Begin(FRESH.c), BEGUN, 0).extra <= 1
  {
    hide LINE, BEGUN, RunBuffer, Spend, Begin;
    SpendRounds(Begin(FRESH.c), BEGUN, 0);
  }

  /** Then any buffer that begins with HTTP_MAX_HEADER_SIZE bytes without a line end, the first of them legal, exceeds the
      budget, and the session still waits. */
  lemma OverflowReached(buffer: string)
    requires |buffer| > HTTP_MAX_HEADER_SIZE && IsHeaderChar(buffer[0])
    requires forall i :: 0 <= i < HTTP_MAX_HEADER_SIZE ==> !IsEol(buffer[i])
    ensures Sound(FRESH, BEGUN) && Handled(FRESH, BEGUN).status == StatusPartReceived
    ensures Handled(AfterBegun(), buffer).status == StatusPartReceived && !Sound(AfterBegun(), buffer)
  {
    BegunWaits();
    hide Handled, Sound, NextStart, IsEol, IsHeaderChar, LINE;
    ValueOverflow(AfterBegun(), buffer);
  }

  // Connection lists

  /** A request with a Connection header. */
  function Connecting(v: string): Message {
    Message(ASKED, [Line(Header("Connection", v, []), [SP], [CR, LF])], [CR, LF], ULLONG_MAX, Load.Empty)
  }

  predicate GoodList(v: string) {
    NoEol(v) && Legal(false, v) && (v != "" ==> v[0] != SP && v[0] != HT)
  }

  lemma ConnectionName()
    ensures AllTokens("Connection") && LowerCase("Connection") == CONNECTION
  {
  }

  lemma ConnectionSays(h: Header)
    requires h.name == "Connection" && h.folds == []
    ensures !SaysChunked(h) && !SaysLength(h) && !SaysUpgrade(h) && (SaysClose(h) <==> Has(LookedAt(Elements(h.value)), CLOSE))
  {
    ConnectionName();
    hide LowerCase, AllTokens, Has, LookedAt, Elements;
  }

  lemma ConnectingLines(v: string)
    requires GoodList(v)
    ensures
      var (m, h) := (Connecting(v), Header("Connection", v, []));
      HeadersOf(m.lines) == AllHeaders(m) == [h] && GoodLines(false, false, m.lines)
  {
    var (m, h) := (Connecting(v), Header("Connection", v, []));
    ConnectionName();
    assert |CONNECTION| != |CONTENT_LENGTH|;
    PrintedLine(h);
    hide LowerCase, AllTokens, NoEol, Legal, GoodEnds, LineText;
    assert GoodHeader(false, false, h);
    assert GoodHeaders(false, false, []) && [h][0] == h;
    assert m.lines[1..] == [] && HeadersOf([]) == [] && HeadersOf(m.lines) == [h] + [] == [h] && [h] + [] == [h];
    assert [h][1..] == [];
  }

  lemma ConnectingFlags(h: Header)
    requires h.name == "Connection" && h.folds == []
    ensures !Any([h], SaysChunked) && !Any([h], SaysUpgrade) && !Any([h], SaysLength) && (Any([h], SaysClose) <==> SaysClose(h))
    ensures LengthOf(ULLONG_MAX, [h], ULLONG_MAX)
  {
    ConnectionSays(h);
    AnyOne(h, SaysChunked);
    AnyOne(h, SaysUpgrade);
    AnyOne(h, SaysLength);
    AnyOne(h, SaysClose);
    hide Any, SaysChunked, SaysUpgrade, SaysLength, SaysClose;
  }

  lemma GoodConnecting(v: string)
    requires GoodList(v)
    ensures
      var (m, h) := (Connecting(v), Header("Connection", v, []));
      && HeadersOf(m.lines) == AllHeaders(m) == [h] && GoodMessage(m) && Following(m) == NoBody
      && (GoesOn(Record(m), [h]) <==> !SaysClose(h))
  {
    var (m, h) := (Connecting(v), Header("Connection", v, []));
    AskedFacts();
    ConnectingLines(v);
    ConnectingFlags(h);
    hide GoodOpening, Opened, Any, SaysChunked, SaysUpgrade, SaysLength, SaysClose, GoodLines, HeadersOf, LengthOf, GoodList;
  }

  /** In any partition, the request is taken, and the connection ends with it exactly if the parser looks at an element
      "close" of the list. */
  lemma ConnectingInPieces(v: string, pieces: seq<string>)
    requires GoodList(v) && (forall i :: 0 <= i < |pieces| ==> pieces[i] != "") && Flatten(pieces) == MessageText(Connecting(v))
    ensures
      var r := RunAll(Initial(BOTH), pieces);
      && r.outcome == Completed
      && r.c.ps.state == if Has(LookedAt(Elements(v)), CLOSE) then Dead else Start(StartReq)
  {
    hide GoodMessage, MessageText, GoodOpening, Opened, Has, LookedAt, Elements, RunAll, Flatten, SaysClose, Settled, MayOpen, GoesOn,
         HeadersOf, GoodList, Following, Ended, Connecting, ASKED, EndControl, EndOutcome, Record, AllHeaders, Begin, MessageCalls;
    var (c, m, h) := (Initial(BOTH), Connecting(v), Header("Connection", v, []));
    GoodConnecting(v);
    ConnectionSays(h);
    assert m.opening == ASKED by { ConnectingAsks(v); }
    FreshParser(ASKED);
    assert MessageText(m) + "" == MessageText(m);
    ConnectingEnd(m, h);
    MessageInPieces(c, m, "", pieces);
    ConnectingState(m, h, RunAll(c, pieces).c.ps);
  }

  lemma ConnectingAsks(v: string)
    ensures Connecting(v).opening == ASKED
  {
    hide ASKED;
  }

  lemma ConnectingEnd(m: Message, h: Header)
    requires Following(m) == NoBody
    ensures EndControl(m) == Control.Next && EndOutcome(EndControl(m)) == Completed
  {
  }

  lemma ConnectingState(m: Message, h: Header, ps: Parser)
    requires Following(m) == NoBody && AllHeaders(m) == [h] && Ended(m, ps) && m.opening == ASKED
    ensures ps.state == if GoesOn(Record(m), [h]) then Start(StartReq) else Dead
  {
    AskedFacts();
    hide Following, GoesOn, Settled, Opened, AllHeaders;
  }

  /** "clo,close", "x,clo,close" and "x,,close" leave the connection open, although "close" is an element; "clo,x,close"
      ends it. */
  lemma CloseOverlooked(v: string, pieces: seq<string>)
    requires v in OVERLOOKED || v == SEEN
    requires (forall i :: 0 <= i < |pieces| ==> pieces[i] != "") && Flatten(pieces) == MessageText(Connecting(v))
    ensures RunAll(Initial(BOTH), pieces).outcome == Completed
    ensures v in OVERLOOKED ==> Has(Elements(v), CLOSE) && RunAll(Initial(BOTH), pieces).c.ps.state == Start(StartReq)
    ensures v == SEEN ==> RunAll(Initial(BOTH), pieces).c.ps.state == Dead
  {
    hide Has, LookedAt, Elements, MessageText, Flatten, RunAll, GoodList, Connecting, OVERLOOKED, SEEN, Letters;
    SomeLists(v);
    LettersGood(v);
    ConnectingInPieces(v, pieces);
  }

  lemma LettersGood(v: string)
    requires Letters(v)
    ensures GoodList(v)
  {
  }
}
