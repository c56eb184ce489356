/** Whole messages, and streams of them: what the parser makes of a first line, any header lines, and what follows them. */
module Messages {
  import opened Characters
  import opened Http
  import opened Trace
  import opened Machine
  import opened Split
  import opened Reading
  import opened HeaderLines
  import opened HeadReading
  import opened Framing
  import opened Content
  import opened Chunked

  /** What comes after a head. */
  datatype Load = Empty | Plain(bytes: string) | InChunks(body: ChunkedBody)

  /** A message; its length is the announced one, or the sentinel. */
  datatype Message = Message(opening: Opening, lines: seq<Line>, blank: string, length: nat, load: Load)

  function LoadText(l: Load): string {
    match l
    case Empty => ""
    case Plain(bytes) => bytes
    case InChunks(b) => ChunkedText(b)
  }

  function HeadOfText(m: Message): string {
    OpeningText(m.opening) + (LinesText(m.lines) + m.blank)
  }

  function MessageText(m: Message): string {
    HeadOfText(m) + LoadText(m.load)
  }

  /** The message record after the first line. */
  function Record(m: Message): Parser {
    Opened(Init(BOTH), m.opening)
  }

  /** What follows the head of a message. */
  function Following(m: Message): Body {
    BodyOf(Record(m), HeadersOf(m.lines), m.length)
  }

  /** The load is what the head says. */
  ghost predicate Carries(body: Body, load: Load) {
    match body
    case Chunks => load.InChunks? && GoodBody(false, false, load.body)
    case Bytes(n) => load.Plain? && |load.bytes| == n
    case Rest => load.Plain?
    case _ => load.Empty?
  }

  ghost predicate GoodMessage(m: Message) {
    && GoodOpening(m.opening) && GoodLines(false, false, m.lines) && IsLineEnd(m.blank)
    && LengthOf(ULLONG_MAX, HeadersOf(m.lines), m.length) && Carries(Following(m), m.load)
  }

  /** Between two messages, or before the first one. */
  predicate Settled(ps: Parser) {
    && !ps.lenient
    && (ps.state in {Start(StartReqOrRes), Start(StartReq)} ==> ps.status == 0)
    && (ps.state in {Start(StartReqOrRes), Start(StartRes)} ==> ps.verb == DELETE)
    && (ps.state == Start(StartReq) ==> ps.ptype == REQUEST)
    && (ps.state == Start(StartRes) ==> ps.ptype == RESPONSE)
    && ps.state in {Start(StartReqOrRes), Start(StartReq), Start(StartRes)}
  }

  /** The headers of a message, trailers included. */
  function AllHeaders(m: Message): seq<Header> {
    HeadersOf(m.lines) + if m.load.InChunks? then HeadersOf(m.load.body.trailers) else []
  }

  /** The largest count after a load: only chunks count. */
  function LoadPeak(p: nat, l: Load): nat {
    if l.InChunks? then BodyPeak(p, l.body) else p
  }

  function LoadCalls(body: Body, load: Load): seq<Event> {
    match load
    case Empty => []
    case Plain(bytes) =>
      (if bytes == "" then [] else [Data(Kind.Body, bytes)]) + if body.Bytes? then [MessageComplete] else []
    case InChunks(b) => ChunkedCalls(b)
  }

  /** The callbacks of a message that is read from state s. */
  function MessageCalls(s: State, m: Message): seq<Event> {
    OpeningCalls(s, m.opening) + HeaderCalls(HeadersOf(m.lines)) + EndCalls(Following(m), HeadOf(Record(m).(length := m.length)))
    + LoadCalls(Following(m), m.load)
  }

  /** What the last byte of a message does to the run: it stops if the message is rejected, or another protocol follows. */
  function EndControl(m: Message): (control: Control)
    ensures !control.Again?
  {
    match Following(m)
    case Rejected => Fail(UNEXPECTED_CONTENT_LENGTH)
    case OtherProtocol => Exit
    case NoBody => Control.Next
    case Rest => Control.Next
    case _ => Last(Switches(Record(m), HeadersOf(m.lines)))
  }

  /** The parser after a message: it waits for the end of the stream; or for the next message, if the connection goes on. */
  predicate Ended(m: Message, ps: Parser) {
    match Following(m)
    case Rejected => true
    case Rest => ps.state == State.Content(BodyIdentityEof)
    case _ => ps.state == NextState(Record(m), AllHeaders(m)) && (ps.state == Dead || Settled(ps))
  }

  /** The record after the first line is the same at the start of every message. */
  lemma SameRecord(ps: Parser, m: Message)
    requires Settled(ps) && ps.state in {Start(StartReqOrRes), if m.opening.Answers? then Start(StartRes) else Start(StartReq)}
    ensures
      var (r, s) := (Opened(ps, m.opening), Record(m));
      r == s.(index := r.index, hstate := r.hstate, upgrade := r.upgrade)
  {
  }

  /** What follows does not depend on the rest of the record. */
  lemma SameFollows(r: Parser, s: Parser, hs: seq<Header>, n: nat)
    requires r == s.(index := r.index, hstate := r.hstate, upgrade := r.upgrade)
    ensures BodyOf(r, hs, n) == BodyOf(s, hs, n) && Switches(r, hs) == Switches(s, hs) && NextState(r, hs) == NextState(s, hs)
    ensures HeadOf(r.(length := n)) == HeadOf(s.(length := n))
  {
    hide Any, NeverBody;
  }

  /** The parser after a head: nothing has been delivered but the head, and what follows is decided. */
  predicate HeadRead(c: Config, m: Message, d: Config, control: Control) {
    var (hs, body) := (HeadersOf(m.lines), Following(m));
    && d.pend == None && !d.skip && d.ps.length == m.length
    && d.calls == c.calls + (OpeningCalls(c.ps.state, m.opening) + HeaderCalls(hs) + EndCalls(body, HeadOf(Record(m).(length := m.length))))
    && Stands(Record(m), hs, body, d.ps.state, control, m.length)
    && (body != Rejected ==>
          && d.n == 0 && d.ps.flags == FlagsOf(NO_FLAGS, hs) && d.ps.upgrade == Switches(Record(m), hs)
          && d.ps == Record(m).(state := d.ps.state, index := d.ps.index, hstate := d.ps.hstate, flags := d.ps.flags,
                                length := m.length, upgrade := d.ps.upgrade))
  }

  lemma ReadHead(c: Config, m: Message) returns (d: Config, control: Control)
    requires MayOpen(c, m.opening) && Settled(c.ps) && GoodMessage(m)
    ensures EndsIn(c, HeadOfText(m), d, control) && HeadRead(c, m, d, control)
    ensures ReadBefore(c, HeadOfText(m)).calls <= c.calls + (OpeningCalls(c.ps.state, m.opening) + HeaderCalls(HeadersOf(m.lines)))
  {
    hide Read, GoodOpening, OpeningText, Opened, LinesText, HeadersOf, Settled, EndsIn, LengthOf, Carries, Follows, BodyOf,
         FlagsOf, GoodHeaders, HeaderCalls, OpeningCalls, IsLineEnd, GoodEnds;
    SettledFacts(c.ps);
    var c1 := ReadOpening(c, m.opening, "");
    ReadNothing(c1);
    assert OpeningText(m.opening) + "" == OpeningText(m.opening);
    SameRecord(c.ps, m);
    OpenedFacts(c.ps, m.opening);
    d, control := HeadDecision(c1, m.lines, m.blank);
    var hs := HeadersOf(m.lines);
    LengthUnique(false, hs, m.length, d.ps.length);
    SameFollows(c1.ps, Record(m), hs, m.length);
    SameStands(c1.ps, Record(m), hs, BodyOf(c1.ps, hs, m.length), d.ps.state, control, m.length);
    EndsJoin(c, OpeningText(m.opening), LinesText(m.lines) + m.blank, d, control);
    EndsFacts(c1, LinesText(m.lines) + m.blank, d, control);
    BeforeJoin(c, OpeningText(m.opening), c1, LinesText(m.lines) + m.blank);
    assert c.calls + OpeningCalls(c.ps.state, m.opening) + HeaderCalls(hs)
        == c.calls + (OpeningCalls(c.ps.state, m.opening) + HeaderCalls(hs));
    RecordAfter(c1.ps, m, d.ps);
    HeadIs(c1.ps, m, d.ps);
    assert c.calls + OpeningCalls(c.ps.state, m.opening) + HeaderCalls(hs) + EndCalls(Following(m), HeadOf(d.ps))
        == c.calls + (OpeningCalls(c.ps.state, m.opening) + HeaderCalls(hs) + EndCalls(Following(m), HeadOf(d.ps)));
  }

  lemma BeforeJoin(c: Config, s: string, d: Config, t: string)
    requires Read(c, s) == Some(d) && t != "" && Read(d, t[..|t| - 1]).Some?
    ensures ReadBefore(c, s + t) == ReadBefore(d, t)
  {
    hide Read;
    assert (s + t)[..|s + t| - 1] == s + t[..|t| - 1];
    ReadJoin(c, s, t[..|t| - 1]);
  }

  lemma SettledFacts(ps: Parser)
    requires Settled(ps)
    ensures !ps.lenient
  {
  }

  lemma OpenedFacts(ps: Parser, o: Opening)
    ensures
      var r := Opened(ps, o);
      r.state == Fields(FieldStart) && r.flags == NO_FLAGS && r.length == ULLONG_MAX && r.lenient == ps.lenient
  {
  }

  lemma SameStands(r: Parser, s: Parser, hs: seq<Header>, body: Body, state: State, control: Control, n: nat)
    requires r == s.(index := r.index, hstate := r.hstate, upgrade := r.upgrade)
    ensures Stands(r, hs, body, state, control, n) == Stands(s, hs, body, state, control, n)
  {
    SameFollows(r, s, hs, n);
    hide NextState;
  }

  lemma RecordAfter(r: Parser, m: Message, d: Parser)
    requires r == Record(m).(index := r.index, hstate := r.hstate, upgrade := r.upgrade) && d.length == m.length
    requires Following(m) != Rejected ==> AfterHead(r, HeadersOf(m.lines), d)
    ensures Following(m) != Rejected ==>
      && d.flags == FlagsOf(NO_FLAGS, HeadersOf(m.lines)) && d.upgrade == Switches(Record(m), HeadersOf(m.lines))
      && d == Record(m).(state := d.state, index := d.index, hstate := d.hstate, flags := d.flags, length := m.length, upgrade := d.upgrade)
  {
    SameFollows(r, Record(m), HeadersOf(m.lines), m.length);
    hide FlagsOf, LengthKnown, Switches, Record, HeadersOf, Following;
  }

  lemma HeadIs(r: Parser, m: Message, d: Parser)
    requires Following(m) != Rejected ==>
      d == Record(m).(state := d.state, index := d.index, hstate := d.hstate, flags := d.flags, length := m.length, upgrade := d.upgrade)
    ensures EndCalls(Following(m), HeadOf(d)) == EndCalls(Following(m), HeadOf(Record(m).(length := m.length)))
  {
    hide Record, Following;
  }

  // After the head

  lemma AnyJoin(hs: seq<Header>, ks: seq<Header>, says: Header -> bool)
    ensures Any(hs + ks, says) <==> Any(hs, says) || Any(ks, says)
  {
    if Any(hs, says) { var h :| h in hs && says(h); assert h in hs + ks; }
    if Any(ks, says) { var h :| h in ks && says(h); assert h in hs + ks; }
  }

  /** After a chunked body the trailers decide together with the headers whether the connection goes on. */
  lemma ChunksPersist(r: Parser, hs: seq<Header>, ks: seq<Header>, d: Parser)
    requires d == r.(state := d.state, index := d.index, hstate := d.hstate, flags := d.flags, length := d.length, upgrade := d.upgrade)
    requires d.flags == FlagsOf(FlagsOf(NO_FLAGS, hs).(trailing := true), ks) && Any(hs, SaysChunked)
    ensures NewMessage(d) == NextState(r, hs + ks)
  {
    AnyJoin(hs, ks, SaysClose);
    AnyJoin(hs, ks, SaysKeepAlive);
    AnyJoin(hs, ks, SaysChunked);
    hide Any;
  }

  lemma BodyPersists(r: Parser, hs: seq<Header>, d: Parser)
    requires d == r.(state := d.state, index := d.index, hstate := d.hstate, flags := d.flags, length := 0, upgrade := d.upgrade)
    requires d.flags == FlagsOf(NO_FLAGS, hs) && Any(hs, SaysLength)
    ensures NewMessage(d) == NextState(r, hs)
  {
    hide Any;
  }

  /** Start states are settled. */
  lemma NowSettled(m: Message, hs: seq<Header>, d: Parser)
    requires d.lenient == Record(m).lenient && d.ptype == Record(m).ptype && d.status == Record(m).status && d.verb == Record(m).verb
    requires d.state == NextState(Record(m), hs)
    ensures d.state == Dead || Settled(d)
  {
    hide GoesOn, ToTheEnd;
  }

  /** What has been delivered when a message has been read. */
  predicate MessageRead(c: Config, m: Message, d: Config) {
    && Ended(m, d.ps)
    && if Following(m) == Rest && m.load.Plain? && m.load.bytes != "" then
         && d.calls + [Data(Kind.Body, m.load.bytes)] == c.calls + MessageCalls(c.ps.state, m)
         && d.pend == Some(m.load.bytes)
       else d.calls == c.calls + MessageCalls(c.ps.state, m) && d.pend == None
  }

  lemma NoLoad(c: Config, m: Message, d: Config, control: Control)
    requires HeadRead(c, m, d, control) && Following(m) in {Rejected, OtherProtocol, NoBody} && m.load.Empty?
    ensures MessageRead(c, m, d) && control == EndControl(m)
  {
    hide Record, HeaderCalls, HeadersOf, OpeningCalls, FlagsOf, Switches, BodyOf, NextState, Settled;
    var hs := HeadersOf(m.lines);
    assert hs + [] == hs;
    assert MessageCalls(c.ps.state, m) + [] == MessageCalls(c.ps.state, m);
    if Following(m) != Rejected { NowSettled(m, hs, d.ps); }
  }

  lemma ReadLoad(c: Config, m: Message, h: Config) returns (d: Config)
    requires HeadRead(c, m, h, Control.Next) && Carries(Following(m), m.load)
    requires Following(m) !in {Rejected, OtherProtocol, NoBody} && LoadText(m.load) != ""
    ensures EndsIn(h, LoadText(m.load), d, EndControl(m)) && MessageRead(c, m, d) && d.peak == LoadPeak(h.peak, m.load)
  {
    hide Record, HeaderCalls, HeadersOf, OpeningCalls, FlagsOf, Switches, BodyOf, NextState, Settled, EndsIn, GoodBody, ChunkedText, NewMessage;
    match Following(m)
    case Chunks => d := ReadChunkLoad(c, m, h);
    case Bytes(_) => d := ReadSizedLoad(c, m, h);
    case Rest => d := ReadEofLoad(c, m, h);
  }

  /** The callbacks of the load come behind those of the head. */
  lemma CallsJoin(c: Config, m: Message, h: Config, control: Control, calls: seq<Event>)
    requires HeadRead(c, m, h, control) && calls == h.calls + LoadCalls(Following(m), m.load)
    ensures calls == c.calls + MessageCalls(c.ps.state, m)
  {
    hide Record, HeaderCalls, HeadersOf, OpeningCalls, Switches, FlagsOf, Following, Stands, LoadCalls, EndCalls;
  }

  /** What is left of a head that has been read. */
  lemma HeadFacts(c: Config, m: Message, h: Config, control: Control)
    requires HeadRead(c, m, h, control) && Following(m) != Rejected
    ensures
      var hs := HeadersOf(m.lines);
      && h.pend == None && !h.skip && h.ps.length == m.length && h.ps.flags == FlagsOf(NO_FLAGS, hs) && h.ps.upgrade == Switches(Record(m), hs)
      && h.ps == Record(m).(state := h.ps.state, index := h.ps.index, hstate := h.ps.hstate, flags := h.ps.flags,
                            length := m.length, upgrade := h.ps.upgrade)
      && Stands(Record(m), hs, Following(m), h.ps.state, control, m.length)
  {
  }

  lemma RecordFacts(m: Message)
    ensures !Record(m).lenient
  {
  }

  lemma NothingCounted(c: Config, m: Message, h: Config)
    requires HeadRead(c, m, h, Control.Next) && Following(m).Chunks?
    ensures h.n == 0
  {
  }

  lemma ReadChunkLoad(c: Config, m: Message, h: Config) returns (d: Config)
    requires HeadRead(c, m, h, Control.Next) && Carries(Following(m), m.load) && Following(m).Chunks?
    ensures EndsIn(h, LoadText(m.load), d, EndControl(m)) && MessageRead(c, m, d) && d.peak == LoadPeak(h.peak, m.load)
  {
    ChunksStart(c, m, h);
    hide Record, HeaderCalls, HeadersOf, Following, EndsIn, GoodBody, ChunkedText, ChunkedCalls, HeadRead, MessageCalls, BodyEnded,
         Ended, MessageRead, LoadCalls, EndControl, Carries, Read;
    NothingCounted(c, m, h);
    d := ReadChunked(h, m.load.body);
    ChunksEnd(m, h.ps, d.ps);
    CallsJoin(c, m, h, Control.Next, d.calls);
    LoadRead(c, m, d);
  }

  /** The parser before a chunked body. */
  lemma ChunksStart(c: Config, m: Message, h: Config)
    requires HeadRead(c, m, h, Control.Next) && Carries(Following(m), m.load) && Following(m).Chunks?
    ensures m.load.InChunks? && LoadText(m.load) == ChunkedText(m.load.body) && LoadCalls(Following(m), m.load) == ChunkedCalls(m.load.body)
    ensures InSizeLine(h, ChunkSizeStart) && h.ps.flags.chunked && GoodBody(h.ps.lenient, h.ps.flags.contentLength, m.load.body)
    ensures EndControl(m) == Last(h.ps.upgrade) && h.ps.flags == FlagsOf(NO_FLAGS, HeadersOf(m.lines))
    ensures
      h.ps == Record(m).(state := h.ps.state, index := h.ps.index, hstate := h.ps.hstate, flags := h.ps.flags, length := m.length,
                         upgrade := h.ps.upgrade)
  {
    SaidChunks(m);
    HeadFacts(c, m, h, Control.Next);
    RecordFacts(m);
    hide Record, HeadersOf, Switches, Following, GoodBody, ChunkedText, ChunkedCalls, Any, FlagsOf, HeadRead;
    ChunkFlags(HeadersOf(m.lines));
  }

  lemma LoadRead(c: Config, m: Message, d: Config)
    requires Ended(m, d.ps) && d.calls == c.calls + MessageCalls(c.ps.state, m) && d.pend == None && !Following(m).Rest?
    ensures MessageRead(c, m, d)
  {
    hide Ended, MessageCalls, Following;
  }

  lemma ChunksEnd(m: Message, h: Parser, d: Parser)
    requires Following(m).Chunks? && m.load.InChunks? && h.flags == FlagsOf(NO_FLAGS, HeadersOf(m.lines)) && BodyEnded(h, m.load.body, d)
    requires h == Record(m).(state := h.state, index := h.index, hstate := h.hstate, flags := h.flags, length := m.length, upgrade := h.upgrade)
    ensures Ended(m, d)
  {
    SaidChunks(m);
    hide Record, HeadersOf, Following, NextState, Settled, NewMessage, Any, FlagsOf;
    var (hs, ks) := (HeadersOf(m.lines), HeadersOf(m.load.body.trailers));
    ChunksPersist(Record(m), hs, ks, d);
    NowSettled(m, hs + ks, d);
  }

  lemma ChunkFlags(hs: seq<Header>)
    ensures FlagsOf(NO_FLAGS, hs).chunked == Any(hs, SaysChunked) && FlagsOf(NO_FLAGS, hs).contentLength == Any(hs, SaysLength)
  {
    hide Any;
  }

  lemma SaidChunks(m: Message)
    requires Following(m).Chunks?
    ensures Any(HeadersOf(m.lines), SaysChunked) && !Any(HeadersOf(m.lines), SaysLength)
  {
    hide Any, SaysChunked, SaysLength, Switches, ToTheEnd;
  }

  lemma ReadSizedLoad(c: Config, m: Message, h: Config) returns (d: Config)
    requires HeadRead(c, m, h, Control.Next) && Carries(Following(m), m.load) && Following(m).Bytes?
    ensures EndsIn(h, LoadText(m.load), d, EndControl(m)) && MessageRead(c, m, d) && d.peak == LoadPeak(h.peak, m.load)
  {
    SaidBytes(m);
    HeadFacts(c, m, h, Control.Next);
    var (hs, body) := (HeadersOf(m.lines), m.load.bytes);
    SizedCalls(m.length, body);
    hide Record, HeaderCalls, HeadersOf, Switches, Following, NextState, Settled, EndsIn, NewMessage, Any, FlagsOf, HeadRead, MessageCalls,
         LoadCalls;
    d := ReadBody(h, body);
    SizedEnd(m, h.ps, d.ps);
    CallsJoin(c, m, h, Control.Next, d.calls);
  }

  lemma SizedCalls(n: nat, body: string)
    requires body != ""
    ensures LoadCalls(Bytes(n), Plain(body)) == [Data(Kind.Body, "" + body), MessageComplete]
  {
    assert "" + body == body;
  }

  lemma SizedEnd(m: Message, h: Parser, d: Parser)
    requires Following(m).Bytes? && m.load.Plain? && h.flags == FlagsOf(NO_FLAGS, HeadersOf(m.lines))
    requires h == Record(m).(state := h.state, index := h.index, hstate := h.hstate, flags := h.flags, length := m.length, upgrade := h.upgrade)
    requires var done := h.(length := 0, state := State.Content(MessageDone)); d == done.(state := NewMessage(done))
    ensures Ended(m, d)
  {
    SaidBytes(m);
    hide Record, HeadersOf, Following, NextState, Settled, NewMessage, Any, FlagsOf;
    var hs := HeadersOf(m.lines);
    assert hs + [] == hs;
    BodyPersists(Record(m), hs, h.(length := 0, state := State.Content(MessageDone)));
    NowSettled(m, hs, d);
  }

  lemma SaidBytes(m: Message)
    requires Following(m).Bytes?
    ensures Any(HeadersOf(m.lines), SaysLength) && m.length > 0 && Following(m) == Bytes(m.length)
  {
    hide Any, SaysChunked, SaysLength, Switches, ToTheEnd;
  }

  lemma ReadEofLoad(c: Config, m: Message, h: Config) returns (d: Config)
    requires HeadRead(c, m, h, Control.Next) && Carries(Following(m), m.load) && Following(m).Rest? && LoadText(m.load) != ""
    ensures EndsIn(h, LoadText(m.load), d, EndControl(m)) && MessageRead(c, m, d) && d.peak == LoadPeak(h.peak, m.load)
  {
    hide Record, HeaderCalls, HeadersOf, OpeningCalls, Switches, Following, NextState, Settled, EndsIn, FlagsOf;
    d := ReadToEnd(h, m.load.bytes);
    assert "" + m.load.bytes == m.load.bytes;
    assert d.calls + [Data(Kind.Body, m.load.bytes)] == c.calls + MessageCalls(c.ps.state, m);
  }

  /** Where a head is followed by something, the run goes on after it. */
  lemma HeadGoesOn(c: Config, m: Message, d: Config, control: Control)
    requires HeadRead(c, m, d, control) && Following(m) !in {Rejected, OtherProtocol, NoBody}
    ensures control.Next?
  {
    hide Record, HeaderCalls, HeadersOf, OpeningCalls, Switches, FlagsOf, NextState, BodyOf;
  }

  /** A body that ends with the stream may be empty. */
  lemma EmptyRest(c: Config, m: Message, d: Config, control: Control)
    requires HeadRead(c, m, d, control) && Carries(Following(m), m.load) && LoadText(m.load) == ""
    requires Following(m) !in {Rejected, OtherProtocol, NoBody}
    ensures MessageRead(c, m, d) && control == EndControl(m)
  {
    if Following(m).Bytes? { SaidBytes(m); }
    if Following(m).Chunks? { SomeChunks(m.load.body); }
    hide Record, HeaderCalls, HeadersOf, OpeningCalls, Switches, FlagsOf, NextState, Following, GoodBody, ChunkedText;
    assert MessageCalls(c.ps.state, m) + [] == MessageCalls(c.ps.state, m);
  }

  lemma SomeChunks(b: ChunkedBody)
    ensures ChunkedText(b) != ""
  {
    assert CR in ChunkedText(b);
  }

  /** A whole message is read: its callbacks are made, in order, and its last byte leaves the parser where the message says. */
  lemma ReadMessage(c: Config, m: Message) returns (d: Config, h: Config, control: Control)
    requires MayOpen(c, m.opening) && Settled(c.ps) && GoodMessage(m)
    ensures EndsIn(c, MessageText(m), d, EndControl(m)) && MessageRead(c, m, d)
    ensures EndsIn(c, HeadOfText(m), h, control) && HeadRead(c, m, h, control) && d.peak == LoadPeak(h.peak, m.load)
    ensures ReadBefore(c, HeadOfText(m)).calls <= c.calls + (OpeningCalls(c.ps.state, m.opening) + HeaderCalls(HeadersOf(m.lines)))
  {
    hide Read, GoodOpening, HeadOfText, LoadText, Settled, EndsIn, LengthOf, Following, MayOpen, HeadRead, MessageRead, EndControl, GoodLines,
         IsLineEnd, LoadPeak;
    h, control := ReadHead(c, m);
    EmptyLoad(m.load);
    if Following(m) in {Rejected, OtherProtocol, NoBody} {
      assert LoadText(m.load) == "";
      assert HeadOfText(m) + "" == HeadOfText(m);
      NoLoad(c, m, h, control);
      d := h;
    } else if LoadText(m.load) == "" {
      assert HeadOfText(m) + "" == HeadOfText(m);
      EmptyRest(c, m, h, control);
      d := h;
    } else {
      HeadGoesOn(c, m, h, control);
      EndsRead(c, HeadOfText(m), h);
      HeadNoSkip(c, m, h, control);
      d := ReadLoad(c, m, h);
      EndsJoin(c, HeadOfText(m), LoadText(m.load), d, EndControl(m));
    }
  }

  lemma EmptyLoad(l: Load)
    ensures l.Empty? ==> LoadText(l) == ""
    ensures LoadText(l) == "" ==> forall p :: LoadPeak(p, l) == p
  {
  }

  lemma HeadNoSkip(c: Config, m: Message, h: Config, control: Control)
    requires HeadRead(c, m, h, control)
    ensures h.(skip := false) == h
  {
  }

  // In any partition

  /** A message on its own, in any partition of the stream into buffers; and a message that stops the run, whatever comes
      after it. */
  lemma MessageInPieces(c: Config, m: Message, rest: string, pieces: seq<string>)
    requires MayOpen(Begin(c), m.opening) && Settled(c.ps) && GoodMessage(m) && (EndControl(m).Next? ==> rest == "")
    requires (forall i :: 0 <= i < |pieces| ==> pieces[i] != "") && Flatten(pieces) == MessageText(m) + rest
    ensures
      var r := RunAll(c, pieces);
      && r.outcome == EndOutcome(EndControl(m)) && r.at == StoppedAt(EndControl(m), |MessageText(m)|)
      && Ended(m, r.c.ps) && TraceOf(r.c) == Merged(c.calls + MessageCalls(c.ps.state, m))
  {
    BeginSettled(c);
    hide Settled, GoodMessage, MayOpen, RunAll, Flatten, MessageText, EndsIn, MessageRead, Ended, Merged, TraceOf, MessageCalls, Begin,
         EndControl, Same;
    var d, h, control := ReadMessage(Begin(c), m);
    ReadTrace(Begin(c), m, d);
    var r := RunAll(c, pieces);
    if EndControl(m).Next? {
      assert MessageText(m) + "" == MessageText(m);
      EndsInPieces(c, MessageText(m), pieces, d, EndControl(m));
    } else {
      StopsInPieces(c, MessageText(m), rest, pieces, d, EndControl(m));
    }
    SameEnds(m, r.c, d);
  }

  lemma BeginSettled(c: Config)
    requires Settled(c.ps)
    ensures Begin(c).ps == c.ps && Begin(c).calls == c.calls
  {
  }

  lemma ReadTrace(c: Config, m: Message, d: Config)
    requires MessageRead(c, m, d)
    ensures TraceOf(d) == Merged(c.calls + MessageCalls(c.ps.state, m)) && Ended(m, d.ps)
  {
    hide Following, MessageCalls, Merged, Settled, Add, NextState;
    if d.pend.Some? { MergedSnoc(d.calls, Data(Kind.Body, m.load.bytes)); }
  }

  lemma SameEnds(m: Message, c: Config, d: Config)
    requires Same(c, d) && Ended(m, d.ps)
    ensures Ended(m, c.ps) && TraceOf(c) == TraceOf(d)
  {
    hide TraceOf, Ended;
  }

  // Streams of messages

  function StreamText(ms: seq<Message>): string {
    if ms == [] then "" else MessageText(ms[0]) + StreamText(ms[1..])
  }

  /** The callbacks of a stream that is read from state s. */
  function StreamCalls(s: State, ms: seq<Message>): seq<Event>
    decreases |ms|
  {
    if ms == [] then []
    else MessageCalls(s, ms[0]) + StreamCalls(Start(if ms[0].opening.Answers? then StartRes else StartReq), ms[1..])
  }

  /** After the message the connection goes on to another one. */
  predicate Continues(m: Message) {
    && Following(m) !in {Rejected, OtherProtocol, Rest} && !Switches(Record(m), HeadersOf(m.lines))
    && GoesOn(Record(m), AllHeaders(m))
  }

  /** Requests, or responses, of which all but the last are followed by another one. */
  ghost predicate GoodStream(ms: seq<Message>) {
    && ms != [] && (forall i :: 0 <= i < |ms| ==> GoodMessage(ms[i]) && ms[i].opening.Answers? == ms[0].opening.Answers?)
    && forall i :: 0 <= i < |ms| - 1 ==> Continues(ms[i])
  }

  /** After a message that continues the next one may open. */
  lemma NextMayOpen(c: Config, m: Message, d: Config, o: Opening)
    requires MessageRead(c, m, d) && Continues(m) && o.Answers? == m.opening.Answers?
    ensures d.ps.state == Start(if m.opening.Answers? then StartRes else StartReq)
    ensures MayOpen(d.(skip := false), o) && Settled(d.ps) && d.calls == c.calls + MessageCalls(c.ps.state, m) && EndControl(m).Next?
  {
    NotToTheEnd(m);
    RecordType(m);
    hide Record, AllHeaders, GoesOn, ToTheEnd, MessageCalls, Switches, Following;
  }

  lemma NotToTheEnd(m: Message)
    requires Following(m) !in {Rejected, OtherProtocol, Rest}
    ensures !ToTheEnd(Record(m), AllHeaders(m))
  {
    var (hs, ks) := (HeadersOf(m.lines), if m.load.InChunks? then HeadersOf(m.load.body.trailers) else []);
    AnyJoin(hs, ks, SaysChunked);
    AnyJoin(hs, ks, SaysLength);
    hide Record, HeadersOf, Any, Switches, NeverBody;
  }

  lemma RecordType(m: Message)
    ensures Record(m).ptype == if m.opening.Answers? then RESPONSE else REQUEST
  {
  }

  lemma ReadOneMessage(c: Config, m: Message) returns (d: Config)
    requires MayOpen(c, m.opening) && Settled(c.ps) && GoodMessage(m)
    ensures EndsIn(c, MessageText(m), d, EndControl(m)) && MessageRead(c, m, d)
  {
    hide *;
    var h, control;
    d, h, control := ReadMessage(c, m);
  }

  lemma OneInStream(s: State, ms: seq<Message>)
    requires |ms| == 1
    ensures StreamText(ms) == MessageText(ms[0]) && StreamCalls(s, ms) == MessageCalls(s, ms[0])
  {
    hide MessageText, MessageCalls;
    assert ms[1..] == [];
    assert MessageText(ms[0]) + "" == MessageText(ms[0]) && MessageCalls(s, ms[0]) + [] == MessageCalls(s, ms[0]);
  }

  /** A stream of messages is read message by message. */
  lemma {:induction false} ReadStream(c: Config, ms: seq<Message>) returns (d: Config)
    requires GoodStream(ms) && MayOpen(c, ms[0].opening) && Settled(c.ps)
    ensures
      var last := ms[|ms| - 1];
      && EndsIn(c, StreamText(ms), d, EndControl(last)) && Ended(last, d.ps)
      && TraceOf(d) == Merged(c.calls + StreamCalls(c.ps.state, ms))
    decreases |ms|
  {
    hide Settled, GoodMessage, MayOpen, MessageText, EndsIn, MessageRead, Ended, Merged, TraceOf, MessageCalls, EndControl, Continues, Read;
    var m := ms[0];
    assert GoodMessage(m);
    d := ReadOneMessage(c, m);
    if ms[1..] == [] {
      ReadTrace(c, m, d);
      OneInStream(c.ps.state, ms);
    } else {
      assert ms[1..][0] == ms[1] && forall i :: 0 <= i < |ms[1..]| ==> ms[1..][i] == ms[i + 1];
      assert Continues(m) && ms[1].opening.Answers? == m.opening.Answers?;
      NextMayOpen(c, m, d, ms[1].opening);
      EndsRead(c, MessageText(m), d);
      var e := ReadStream(d.(skip := false), ms[1..]);
      EndsJoin(c, MessageText(m), StreamText(ms[1..]), e, EndControl(ms[|ms| - 1]));
      assert c.calls + MessageCalls(c.ps.state, m) + StreamCalls(d.ps.state, ms[1..]) == c.calls + StreamCalls(c.ps.state, ms);
      d := e;
    }
  }

  /** Messages sent one after the other over a connection are taken one after the other: in any partition of the stream into
      buffers, the merged callbacks are those of the messages, in order, and the last message decides how the stream ends. */
  lemma StreamInPieces(c: Config, ms: seq<Message>, pieces: seq<string>)
    requires GoodStream(ms) && MayOpen(Begin(c), ms[0].opening) && Settled(c.ps)
    requires (forall i :: 0 <= i < |pieces| ==> pieces[i] != "") && Flatten(pieces) == StreamText(ms)
    ensures
      var (r, last) := (RunAll(c, pieces), ms[|ms| - 1]);
      && r.outcome == EndOutcome(EndControl(last)) && Ended(last, r.c.ps)
      && TraceOf(r.c) == Merged(c.calls + StreamCalls(c.ps.state, ms))
  {
    hide Settled, GoodStream, MayOpen, RunAll, Flatten, StreamText, EndsIn, Ended, Merged, TraceOf, StreamCalls, Begin, EndControl, Same,
         GoodMessage, Continues, EndOutcome;
    BeginSettled(c);
    SomeMessages(ms);
    var last := ms[|ms| - 1];
    var d := ReadStream(Begin(c), ms);
    EndsInPieces(c, StreamText(ms), pieces, d, EndControl(last));
    SameEnds(last, RunAll(c, pieces).c, d);
  }

  lemma SomeMessages(ms: seq<Message>)
    requires GoodStream(ms)
    ensures ms != []
  {
    hide GoodMessage, Continues;
  }

  /** A new parser may take any stream of messages. */
  lemma FreshParser(o: Opening)
    ensures
      var c := Config(Init(BOTH), false, 0, 0, [], None);
      MayOpen(Begin(c), o) && Settled(c.ps)
  {
  }
}
