/** A new session, given a whole message in one buffer: which packet it delivers, or how it refuses the message. */
module Deliveries {
  import opened Http
  import opened Machine
  import opened Budget
  import opened Reading
  import opened HeaderLines
  import opened HeadReading
  import opened Framing
  import opened Content
  import opened Chunked
  import opened Messages
  import opened HeadSizes
  import opened Packets
  import opened Assembling
  import opened Sessions
  import opened Split

  /** The packet for a message; a status of 0 makes it a request, as in the source. */
  function Received(m: Message, body: Option<string>): PacketValue {
    var r := Record(m);
    var url := if m.opening.Answers? then "" else m.opening.url;
    var headers := AddAll(map[], AllHeaders(m));
    if r.status != 0 then PacketValue(Response, r.major, r.minor, r.status, None, url, headers, body)
    else PacketValue(Request, r.major, r.minor, NO_STATUS, Some(r.verb), url, headers, body)
  }

  /** The packet while its head is read. */
  function Heard(m: Message, hs: seq<Header>): PacketValue {
    NEW_PACKET.(url := if m.opening.Answers? then "" else m.opening.url, headers := AddAll(map[], hs))
  }

  function HeadSeenOf(m: Message): Head {
    HeadOf(Record(m).(length := m.length))
  }

  lemma HandleOpening(m: Message)
    ensures
      var es := OpeningCalls(Start(StartReqOrRes), m.opening);
      AllHandled(START, es) && HandleAll(START, es).0 == START.(packet := Heard(m, []))
  {
    var es := OpeningCalls(Start(StartReqOrRes), m.opening);
    assert es == [es[0]] + [es[1]];
    HandleOne(START, es[0]);
    HandleOne(START, es[1]);
    HandleJoin(START, [es[0]], [es[1]]);
    hide HandleAll;
  }

  /** The callbacks of the first line and of the headers. */
  function Lines(m: Message): seq<Event> {
    OpeningCalls(Start(StartReqOrRes), m.opening) + HeaderCalls(HeadersOf(m.lines))
  }

  lemma HandleLines(m: Message)
    ensures AllHandled(START, Lines(m))
    ensures
      var a := HandleAll(START, Lines(m)).0;
      a == START.(packet := Heard(m, HeadersOf(m.lines)), field := a.field)
  {
    hide HandleAll, OpeningCalls, HeaderCalls, HeadersOf;
    HandleOpening(m);
    var a := HandleAll(START, OpeningCalls(Start(StartReqOrRes), m.opening)).0;
    HandleHeaders(a, HeadersOf(m.lines));
    HandleJoin(START, OpeningCalls(Start(StartReqOrRes), m.opening), HeaderCalls(HeadersOf(m.lines)));
  }

  /** After on_headers_complete. */
  function HeadHandled(m: Message): Assembly {
    HandleHead(HandleAll(START, Lines(m)).0, HeadSeenOf(m))
  }

  lemma HandleHeadEnd(m: Message)
    ensures
      var es := Lines(m) + [HeadersComplete(HeadSeenOf(m))];
      AllHandled(START, es) && HandleAll(START, es).0 == HeadHandled(m)
  {
    hide HandleAll, Lines, HeadSeenOf;
    HandleLines(m);
    var a := HandleAll(START, Lines(m)).0;
    HandleOne(a, HeadersComplete(HeadSeenOf(m)));
    HandleJoin(START, Lines(m), [HeadersComplete(HeadSeenOf(m))]);
  }

  lemma HeadHandledIs(m: Message)
    ensures
      var a := HeadHandled(m);
      && a.status == StatusPartReceived && a.body == None && a.index == 0 && a.length == m.length % 0x1_0000_0000
      && a.packet == Received(m, None).(headers := AddAll(map[], HeadersOf(m.lines)))
  {
    HandleLines(m);
    hide HandleAll, Record, HeadersOf, AllHeaders, Lines, AddAll;
    RecordRead(m);
  }

  lemma RecordRead(m: Message)
    ensures HeadSeenOf(m) == Head(Record(m).major, Record(m).minor, Record(m).status, Record(m).verb, m.length)
  {
  }

  /** Callbacks up to one that fails. */
  lemma HandleFails(a: Assembly, es: seq<Event>, e: Event, rest: seq<Event>)
    requires AllHandled(a, es) && !Handle(HandleAll(a, es).0, e).1
    ensures HandleAll(a, es + ([e] + rest)).1 == |es|
  {
    var b := HandleAll(a, es).0;
    hide Handle;
    HandleJoin(a, es, [e] + rest);
    assert ([e] + rest)[0] == e;
    assert HandleAll(b, [e] + rest).1 == 0;
  }

  /** The outcome of the session's call. */
  lemma CallOfMessage(m: Message)
    requires GoodMessage(m) && InBudget(m)
    ensures
      CallOf(FRESH.c, MessageText(m))
   == Called(MessageCalls(Start(StartReqOrRes), m), if Following(m) == Rejected then |MessageText(m)| - 1 else |MessageText(m)|,
             if Following(m) == Rejected then UNEXPECTED_CONTENT_LENGTH else Errno.OK)
  {
    SomeText(m);
    RunMessage(m);
    PeakWithin(m);
    Controls(m);
    var r := RunBuffer(FRESH.c, MessageText(m));
    if Following(m) != Rejected { LastState(m, r.c.ps); }
    hide GoodMessage, MessageText, MessageCalls, Ended, Following, EndControl, Spend, InHeaderLoop, Begin, RunBuffer, InBudget, LoadPeak;
    CallWithin(FRESH.c, MessageText(m));
  }

  lemma SomeText(m: Message)
    requires GoodMessage(m)
    ensures MessageText(m) != ""
  {
    hide Carries, GoodLines, LengthOf, GoodOpening, OpeningText, LinesText, LoadText;
  }

  lemma Controls(m: Message)
    ensures EndOutcome(EndControl(m)).Failed? <==> Following(m) == Rejected
    ensures Following(m) == Rejected ==> EndControl(m) == Fail(UNEXPECTED_CONTENT_LENGTH)
  {
    hide Following, Switches;
  }

  /** What becomes of a message, with what follows its head: nothing, or another protocol; a body with a length; chunks; the
      rest of the stream; or it is rejected. A body is taken if it has at most 65535 bytes and a length of its own; data in
      chunks never is. A body that ends with the stream is not taken either, but the status of the call that brings it is no
      error. */
  predicate Answer(m: Message, a: Assembly, sound: bool) {
    match Following(m)
    case Rejected => a.status == StatusError && !sound
    case NoBody => a.status == StatusOk && a.packet == Received(m, None) && sound
    case OtherProtocol => a.status == StatusOk && a.packet == Received(m, None) && sound
    case Bytes(n) =>
      if n <= 65535 then a.status == StatusOk && m.load.Plain? && a.packet == Received(m, Some(m.load.bytes)) && sound
      else a.status == StatusError && !sound
    case Chunks =>
      if m.load.InChunks? && m.load.body.chunks == [] then a.status == StatusOk && a.packet == Received(m, None) && sound
      else a.status == StatusError && !sound
    case Rest => a.status == StatusPartReceived && (sound <==> m.load.Plain? && m.load.bytes == "")
  }

  lemma NewSession(m: Message)
    requires GoodMessage(m) && InBudget(m)
    ensures Answer(m, Handled(FRESH, MessageText(m)), Sound(FRESH, MessageText(m)))
  {
    CallOfMessage(m);
    hide Following, HandleAll, MessageCalls, Received, RunBuffer, MessageText;
    match Following(m)
    case Rejected => RejectedAnswer(m);
    case NoBody => BareAnswer(m);
    case OtherProtocol => BareAnswer(m);
    case Bytes(n) => SizedAnswer(m);
    case Chunks => ChunksAnswer(m);
    case Rest => RestAnswer(m);
  }

  lemma CallsOfMessage(m: Message)
    ensures MessageCalls(Start(StartReqOrRes), m) == Lines(m) + EndCalls(Following(m), HeadSeenOf(m)) + LoadCalls(Following(m), m.load)
  {
    hide OpeningCalls, HeaderCalls, HeadersOf, Following, Record;
  }

  lemma RejectedAnswer(m: Message)
    requires Following(m) == Rejected && Carries(Following(m), m.load) && MessageText(m) != ""
    requires CallOf(FRESH.c, MessageText(m)) == Called(MessageCalls(Start(StartReqOrRes), m), |MessageText(m)| - 1, UNEXPECTED_CONTENT_LENGTH)
    ensures Answer(m, Handled(FRESH, MessageText(m)), Sound(FRESH, MessageText(m)))
  {
    hide HandleAll, MessageCalls, Following, MessageText;
  }

  /** After the head, with nothing that follows it. */
  lemma BareAnswer(m: Message)
    requires Following(m) in {NoBody, OtherProtocol} && Carries(Following(m), m.load)
    requires CallOf(FRESH.c, MessageText(m)) == Called(MessageCalls(Start(StartReqOrRes), m), |MessageText(m)|, Errno.OK)
    ensures Answer(m, Handled(FRESH, MessageText(m)), Sound(FRESH, MessageText(m)))
  {
    hide HandleAll, MessageCalls, Following, MessageText, Received, Lines, HeadSeenOf, HeadHandled, HeadersOf;
    var front := Lines(m) + [HeadersComplete(HeadSeenOf(m))];
    HandleHeadEnd(m);
    HeadHandledIs(m);
    HandleOne(HeadHandled(m), MessageComplete);
    HandleJoin(START, front, [MessageComplete]);
    CallsOfMessage(m);
    NoTrailers(m);
    assert MessageCalls(Start(StartReqOrRes), m) == front + [MessageComplete];
  }

  lemma NoTrailers(m: Message)
    requires !m.load.InChunks?
    ensures AllHeaders(m) == HeadersOf(m.lines)
    ensures forall b :: Received(m, b).(headers := AddAll(map[], HeadersOf(m.lines))) == Received(m, b)
  {
    hide Record, AddAll, HeadersOf;
    assert HeadersOf(m.lines) + [] == HeadersOf(m.lines);
  }

  lemma SizedAnswer(m: Message)
    requires Following(m).Bytes? && Carries(Following(m), m.load) && MessageText(m) != ""
    requires CallOf(FRESH.c, MessageText(m)) == Called(MessageCalls(Start(StartReqOrRes), m), |MessageText(m)|, Errno.OK)
    ensures Answer(m, Handled(FRESH, MessageText(m)), Sound(FRESH, MessageText(m)))
  {
    SaidBytes(m);
    var (n, body) := (m.length, m.load.bytes);
    var a := HandleAll(START, Lines(m)).0;
    HandleHeadEnd(m);
    HeadHandledIs(m);
    HandleLines(m);
    CallsOfMessage(m);
    NoTrailers(m);
    OneBodyCall(body);
    HeadSeenLength(m);
    assert Flatten([body]) == body + Flatten([body][1..]) == body;
    WholeBodyFits(a, HeadSeenOf(m), [body]);
    hide HandleAll, MessageCalls, Following, MessageText, Received, Lines, HeadSeenOf, HeadHandled, HeadersOf, Handle, AllHandled, BodyCalls;
    if n <= 65535 { SizedTaken(m, body); } else { SizedRefused(m, body); }
  }

  lemma HeadSeenLength(m: Message)
    ensures HeadSeenOf(m).length == m.length
  {
  }

  lemma SizedTaken(m: Message, body: string)
    requires Following(m) == Bytes(|body|) && 0 < |body| == m.length <= 65535 && m.load == Plain(body)
    requires AllHandled(START, Lines(m) + [HeadersComplete(HeadSeenOf(m))])
    requires HandleAll(START, Lines(m) + [HeadersComplete(HeadSeenOf(m))]).0 == HeadHandled(m)
    requires MessageCalls(Start(StartReqOrRes), m) == Lines(m) + EndCalls(Following(m), HeadSeenOf(m)) + LoadCalls(Following(m), m.load)
    requires CallOf(FRESH.c, MessageText(m)) == Called(MessageCalls(Start(StartReqOrRes), m), |MessageText(m)|, Errno.OK)
    requires HeadHandled(m).packet == Received(m, None)
    ensures Answer(m, Handled(FRESH, MessageText(m)), Sound(FRESH, MessageText(m)))
  {
    HeadHandledIs(m);
    ReceivedBody(m, body);
    var front := Lines(m) + [HeadersComplete(HeadSeenOf(m))];
    var (a, v) := (HeadHandled(m), Received(m, Some(body)));
    hide HandleAll, MessageCalls, Following, MessageText, Received, Lines, HeadSeenOf, HeadHandled, HeadersOf, Handle, AllHeaders, Zeros;
    var d := Data(Kind.Body, body);
    assert BodySoFar(a, v, "");
    HandlePiece(a, v, "", body);
    assert "" + body == body;
    HandleJoin(START, front, [d]);
    HandleEnd(HandleAll(a, [d]).0, v);
    HandleJoin(START, front + [d], [MessageComplete]);
    assert MessageCalls(Start(StartReqOrRes), m) == front + [d] + [MessageComplete];
  }

  lemma ReceivedBody(m: Message, body: string)
    ensures Received(m, Some(body)).(body := None) == Received(m, None) && Received(m, Some(body)).body == Some(body)
  {
    hide Record, AllHeaders, AddAll;
  }

  lemma SizedRefused(m: Message, body: string)
    requires Following(m) == Bytes(|body|) && 65535 < |body| && m.load == Plain(body)
    requires AllHandled(START, Lines(m) + [HeadersComplete(HeadSeenOf(m))])
    requires HandleAll(START, Lines(m) + [HeadersComplete(HeadSeenOf(m))]).0 == HeadHandled(m)
    requires !AllHandled(HeadHandled(m), [Data(Kind.Body, body)])
    requires MessageCalls(Start(StartReqOrRes), m) == Lines(m) + EndCalls(Following(m), HeadSeenOf(m)) + LoadCalls(Following(m), m.load)
    requires CallOf(FRESH.c, MessageText(m)) == Called(MessageCalls(Start(StartReqOrRes), m), |MessageText(m)|, Errno.OK)
    ensures Answer(m, Handled(FRESH, MessageText(m)), Sound(FRESH, MessageText(m)))
  {
    hide MessageCalls, Following, MessageText, Received, Lines, HeadSeenOf, HeadHandled, HandleAll, Handle;
    var front := Lines(m) + [HeadersComplete(HeadSeenOf(m))];
    var d := Data(Kind.Body, body);
    OneRefused(HeadHandled(m), d);
    HandleFails(START, front, d, [MessageComplete]);
    assert MessageCalls(Start(StartReqOrRes), m) == front + ([d] + [MessageComplete]);
  }

  lemma OneRefused(a: Assembly, e: Event)
    requires !AllHandled(a, [e])
    ensures !Handle(a, e).1
  {
    hide HandleAll;
    if Handle(a, e).1 { HandleOne(a, e); }
  }

  lemma ChunksAnswer(m: Message)
    requires Following(m) == Chunks && Carries(Following(m), m.load) && GoodMessage(m)
    requires CallOf(FRESH.c, MessageText(m)) == Called(MessageCalls(Start(StartReqOrRes), m), |MessageText(m)|, Errno.OK)
    ensures Answer(m, Handled(FRESH, MessageText(m)), Sound(FRESH, MessageText(m)))
  {
    HandleHeadEnd(m);
    HeadHandledIs(m);
    CallsOfMessage(m);
    Unsized(m);
    hide HandleAll, MessageCalls, Following, MessageText, Received, Lines, HeadSeenOf, HeadHandled, HeadersOf, Handle, GoodMessage, GoodBody,
         ChunkedCalls, AllHandled;
    var b := m.load.body;
    if b.chunks == [] { EmptyChunks(m, b); } else { SomeChunksRefused(m, b); }
  }

  /** Chunks come without a length. */
  lemma Unsized(m: Message)
    requires Following(m) == Chunks && GoodMessage(m)
    ensures m.length == ULLONG_MAX && HeadHandled(m).length == 0xFFFF_FFFF
  {
    HeadHandledIs(m);
    SaidChunks(m);
    hide HeadHandled, Following, Any, GoodOpening, GoodLines, Carries;
  }

  /** A call whose callbacks all succeed. */
  lemma AllSucceed(text: string, calls: seq<Event>, front: seq<Event>, es: seq<Event>)
    requires CallOf(FRESH.c, text) == Called(calls, |text|, Errno.OK) && calls == front + es
    requires AllHandled(START, front) && AllHandled(HandleAll(START, front).0, es)
    ensures Handled(FRESH, text) == HandleAll(HandleAll(START, front).0, es).0 && Sound(FRESH, text)
  {
    hide HandleAll, CallOf;
    HandleJoin(START, front, es);
  }

  /** A call of which a callback before the last fails. */
  lemma OneFails(text: string, calls: seq<Event>, front: seq<Event>, d: Event, rest: seq<Event>)
    requires CallOf(FRESH.c, text) == Called(calls, |text|, Errno.OK) && calls == front + ([d] + rest) && rest != []
    requires AllHandled(START, front) && !Handle(HandleAll(START, front).0, d).1
    ensures Handled(FRESH, text).status == StatusError && !Sound(FRESH, text)
  {
    hide HandleAll, CallOf, Handle;
    HandleFails(START, front, d, rest);
  }

  lemma EmptyChunks(m: Message, b: ChunkedBody)
    requires m.load == InChunks(b) && b.chunks == [] && Following(m) == Chunks
    requires AllHandled(START, Lines(m) + [HeadersComplete(HeadSeenOf(m))])
    requires HandleAll(START, Lines(m) + [HeadersComplete(HeadSeenOf(m))]).0 == HeadHandled(m)
    requires HeadHandled(m).packet == Received(m, None).(headers := AddAll(map[], HeadersOf(m.lines))) && HeadHandled(m).body == None
    requires MessageCalls(Start(StartReqOrRes), m) == Lines(m) + EndCalls(Following(m), HeadSeenOf(m)) + LoadCalls(Following(m), m.load)
    requires CallOf(FRESH.c, MessageText(m)) == Called(MessageCalls(Start(StartReqOrRes), m), |MessageText(m)|, Errno.OK)
    ensures Answer(m, Handled(FRESH, MessageText(m)), Sound(FRESH, MessageText(m)))
  {
    EmptyCalls(b);
    ChunkCallbacks(HeadHandled(m), HeadersOf(b.trailers));
    TrailersAdd(m, b);
    hide HandleAll, MessageCalls, Following, MessageText, Lines, HeadSeenOf, HeadHandled, HeadersOf, Handle, ChunkedCalls, HeaderCalls, Received,
         AllHeaders, AddAll, CallOf, AllHandled, Handled, Sound;
    var front := Lines(m) + [HeadersComplete(HeadSeenOf(m))];
    AllSucceed(MessageText(m), MessageCalls(Start(StartReqOrRes), m), front, ChunkedCalls(b));
  }

  lemma EmptyCalls(b: ChunkedBody)
    requires b.chunks == []
    ensures ChunkedCalls(b) == [ChunkHeader(0)] + HeaderCalls(HeadersOf(b.trailers)) + [ChunkComplete] + [MessageComplete]
  {
    hide HeaderCalls, HeadersOf;
    assert ChunkCalls(b.chunks) == [];
  }

  /** The callbacks of chunks change nothing but the status; the trailers are added to the headers. */
  lemma ChunkCallbacks(a: Assembly, ks: seq<Header>)
    requires a.body == None
    ensures
      var es := [ChunkHeader(0)] + HeaderCalls(ks) + [ChunkComplete] + [MessageComplete];
      && AllHandled(a, es) && HandleAll(a, es).0.status == StatusOk
      && HandleAll(a, es).0.packet == a.packet.(headers := AddAll(a.packet.headers, ks))
  {
    var a1 := Handle(a, ChunkHeader(0)).0;
    HandleOne(a, ChunkHeader(0));
    HandleHeaders(a1, ks);
    HandleJoin(a, [ChunkHeader(0)], HeaderCalls(ks));
    var a2 := HandleAll(a1, HeaderCalls(ks)).0;
    HandleOne(a2, ChunkComplete);
    HandleJoin(a, [ChunkHeader(0)] + HeaderCalls(ks), [ChunkComplete]);
    var a3 := Handle(a2, ChunkComplete).0;
    HandleOne(a3, MessageComplete);
    HandleJoin(a, [ChunkHeader(0)] + HeaderCalls(ks) + [ChunkComplete], [MessageComplete]);
    hide HandleAll, HeaderCalls, AddAll;
  }

  lemma {:induction false} AddJoin(m: map<string, string>, hs: seq<Header>, ks: seq<Header>)
    ensures AddAll(AddAll(m, hs), ks) == AddAll(m, hs + ks)
    decreases |hs|
  {
    if hs == [] {
      assert hs + ks == ks;
    } else {
      assert (hs + ks)[0] == hs[0] && (hs + ks)[1..] == hs[1..] + ks;
      AddJoin(m[hs[0].name := LastValue(hs[0])], hs[1..], ks);
    }
  }

  lemma TrailersAdd(m: Message, b: ChunkedBody)
    requires m.load == InChunks(b)
    ensures
      var v := Received(m, None).(headers := AddAll(map[], HeadersOf(m.lines)));
      v.(headers := AddAll(v.headers, HeadersOf(b.trailers))) == Received(m, None)
  {
    AddJoin(map[], HeadersOf(m.lines), HeadersOf(b.trailers));
    hide Record, AddAll, HeadersOf;
  }

  lemma SomeChunksRefused(m: Message, b: ChunkedBody)
    requires m.load == InChunks(b) && b.chunks != [] && Following(m) == Chunks
    requires AllHandled(START, Lines(m) + [HeadersComplete(HeadSeenOf(m))])
    requires HandleAll(START, Lines(m) + [HeadersComplete(HeadSeenOf(m))]).0 == HeadHandled(m)
    requires HeadHandled(m).body == None && HeadHandled(m).length == 0xFFFF_FFFF
    requires MessageCalls(Start(StartReqOrRes), m) == Lines(m) + EndCalls(Following(m), HeadSeenOf(m)) + LoadCalls(Following(m), m.load)
    requires CallOf(FRESH.c, MessageText(m)) == Called(MessageCalls(Start(StartReqOrRes), m), |MessageText(m)|, Errno.OK)
    ensures Answer(m, Handled(FRESH, MessageText(m)), Sound(FRESH, MessageText(m)))
  {
    hide HandleAll, MessageCalls, Following, MessageText, Lines, HeadSeenOf, HeadHandled, HeadersOf, Handle, ChunkedCalls, HeaderCalls, Received,
         ChunkCalls, CallOf, AllHandled, Handled, Sound;
    var front := Lines(m) + [HeadersComplete(HeadSeenOf(m))];
    var h, d, rest := SomeCalls(b);
    FirstChunkRefused(HeadHandled(m), h, d);
    AppendOne(front, h);
    assert MessageCalls(Start(StartReqOrRes), m) == front + [h] + ([d] + rest);
    OneFails(MessageText(m), MessageCalls(Start(StartReqOrRes), m), front + [h], d, rest);
  }

  lemma SomeCalls(b: ChunkedBody) returns (h: Event, d: Event, rest: seq<Event>)
    requires b.chunks != []
    ensures ChunkedCalls(b) == [h] + ([d] + rest) && rest != [] && h.ChunkHeader? && d.Data? && d.kind == Kind.Body
  {
    hide HeaderCalls, HeadersOf;
    var (k, more) := (b.chunks[0], ChunkCalls(b.chunks[1..]));
    h, d := ChunkHeader(|k.data|), Data(Kind.Body, k.data);
    rest := [ChunkComplete] + more + [ChunkHeader(0)] + HeaderCalls(HeadersOf(b.trailers)) + [ChunkComplete, MessageComplete];
    assert ChunkCalls(b.chunks) == [h, d, ChunkComplete] + more;
    assert |rest| >= 2;
  }

  lemma FirstChunkRefused(a: Assembly, h: Event, d: Event)
    requires a.body == None && a.length == 0xFFFF_FFFF && h.ChunkHeader? && d.Data? && d.kind == Kind.Body
    ensures Handle(a, h).1 && !Handle(Handle(a, h).0, d).1
  {
  }

  lemma AppendOne(front: seq<Event>, h: Event)
    requires AllHandled(START, front) && Handle(HandleAll(START, front).0, h).1
    ensures AllHandled(START, front + [h]) && HandleAll(START, front + [h]).0 == Handle(HandleAll(START, front).0, h).0
  {
    hide HandleAll, Handle;
    HandleOne(HandleAll(START, front).0, h);
    HandleJoin(START, front, [h]);
  }

  lemma RestAnswer(m: Message)
    requires Following(m) == Rest && Carries(Following(m), m.load) && GoodMessage(m)
    requires CallOf(FRESH.c, MessageText(m)) == Called(MessageCalls(Start(StartReqOrRes), m), |MessageText(m)|, Errno.OK)
    ensures Answer(m, Handled(FRESH, MessageText(m)), Sound(FRESH, MessageText(m)))
  {
    hide HandleAll, Following, MessageText, Lines, HeadSeenOf, HeadHandled, HeadersOf, Handle, Received, GoodMessage, MessageCalls;
    HandleHeadEnd(m);
    HeadHandledIs(m);
    CallsOfMessage(m);
    UnsizedRest(m);
    RestCalls(m);
    var front := Lines(m) + [HeadersComplete(HeadSeenOf(m))];
    var d := Data(Kind.Body, m.load.bytes);
    NoBuffer(HeadHandled(m), m.load.bytes);
    if m.load.bytes != "" {
      HandleFails(START, front, d, []);
      NoErrorStatus(START, front + ([d] + []));
      FailedStatus(START, front, d);
    }
  }

  /** The callbacks of a message without a length, which ends with the stream. */
  lemma RestCalls(m: Message)
    requires Following(m) == Rest && m.load.Plain?
    requires MessageCalls(Start(StartReqOrRes), m) == Lines(m) + EndCalls(Following(m), HeadSeenOf(m)) + LoadCalls(Following(m), m.load)
    ensures
      var front := Lines(m) + [HeadersComplete(HeadSeenOf(m))];
      MessageCalls(Start(StartReqOrRes), m) == if m.load.bytes == "" then front else front + ([Data(Kind.Body, m.load.bytes)] + [])
  {
    hide MessageCalls, Lines, HeadSeenOf, Following;
    var front := Lines(m) + [HeadersComplete(HeadSeenOf(m))];
    assert front + [] == front;
  }

  lemma NoBuffer(a: Assembly, s: string)
    requires a.body == None && a.length == 0xFFFF_FFFF
    ensures !Handle(a, Data(Kind.Body, s)).1
  {
  }

  lemma FailedStatus(a: Assembly, es: seq<Event>, d: Event)
    requires AllHandled(a, es) && HandleAll(a, es).0.status == StatusPartReceived && d.Data? && d.kind.Body? && !Handle(HandleAll(a, es).0, d).1
    ensures HandleAll(a, es + ([d] + [])).0.status == StatusPartReceived
  {
    var b := HandleAll(a, es).0;
    HandleJoin(a, es, [d] + []);
    assert ([d] + [])[0] == d;
    assert HandleAll(b, [d] + []).0 == Handle(b, d).0;
  }

  lemma UnsizedRest(m: Message)
    requires Following(m) == Rest && GoodMessage(m)
    ensures m.length == ULLONG_MAX && HeadHandled(m).length == 0xFFFF_FFFF
  {
    HeadHandledIs(m);
    SaidRest(m);
    hide HeadHandled, Following, Any, GoodOpening, GoodLines, Carries;
  }

  lemma SaidRest(m: Message)
    requires Following(m) == Rest
    ensures !Any(HeadersOf(m.lines), SaysLength)
  {
    hide Any, Switches, NeverBody;
  }
}
