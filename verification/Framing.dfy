/** How the end of a head decides what follows (section 3.3.3 of RFC 7230), and whether the connection goes on
    (section 6.3 of RFC 7230). */
module Framing {
  import opened Characters
  import opened Http
  import opened Machine
  import opened Scan
  import opened Reading
  import opened Values
  import opened HeaderLines
  import opened HeadReading

  /** Statuses whose responses never have a body. */
  predicate NeverBody(status: nat) {
    100 <= status < 200 || status == 204 || status == 304
  }

  /** A message after which the connection goes on. The source asks for a minor version above 0 too, so that HTTP/2.0
      counts as an old version. */
  predicate Persists(ps: Parser) {
    if ps.major >= 1 && ps.minor >= 1 then !ps.flags.connectionClose else ps.flags.connectionKeepAlive
  }

  /** A response whose body could only be ended by the stream. */
  predicate Unbounded(ps: Parser) {
    !ps.flags.chunked && !ps.flags.contentLength && !ps.ptype.REQUEST? && !NeverBody(ps.status)
  }

  /** Where the next message is read from. */
  predicate Next(ps: Parser, s: State) {
    if Persists(ps) then s == Start(if ps.ptype.REQUEST? then StartReq else StartRes) else s.Dead?
  }

  lemma HeadDonePass(ps: Parser, skip: bool)
    requires ps.state == Ending(HeadersDone)
    ensures PassOf(ps, skip, LF) == EndingPass(ps, HeadersDone, LF)
  {
    hide StartPass, StatusLinePass, TargetPass, VersionPass, FieldsPass, ChunkPass, ContentPass, EndingPass;
  }

  /** A head that announces a body with an end of its own. */
  predicate Bounded(ps: Parser) {
    ps.flags.chunked || (ps.flags.contentLength && ps.length > 0)
  }

  /** The flag stands for a length that is not the sentinel. */
  predicate LengthKnown(ps: Parser) {
    ps.flags.contentLength <==> ps.length != ULLONG_MAX
  }

  /** The end of a head, decided over the message record. */
  lemma DoneDecision(ps: Parser, skip: bool)
    requires ps.state == Ending(HeadersDone) && LengthKnown(ps) && !ps.flags.skipBody
    ensures
      var r := PassOf(ps, skip, LF);
      var s := r.ps.state;
      && r.ps == ps.(state := s) && r.reset && (r.control.Next? || r.control.Exit?)
      && (r.control.Exit? <==> ps.upgrade && (ps.verb.CONNECT? || !Bounded(ps)))
      && (r.control.Exit? ==> r.effect == Call(MessageComplete) && if Unbounded(ps) then s.Dead? else Next(ps, s))
      && (r.control.Next? ==>
            && (s == Chunk(ChunkSizeStart) <==> ps.flags.chunked)
            && (s == State.Content(BodyIdentity) <==> !ps.flags.chunked && ps.flags.contentLength && ps.length > 0)
            && (s == State.Content(BodyIdentityEof) <==> Unbounded(ps))
            && (s !in {Chunk(ChunkSizeStart), State.Content(BodyIdentity), State.Content(BodyIdentityEof)} ==> Next(ps, s))
            && (r.effect == if s in {Chunk(ChunkSizeStart), State.Content(BodyIdentity), State.Content(BodyIdentityEof)} then Nothing
                            else Call(MessageComplete)))
  {
    HeadDonePass(ps, skip);
    hide PassOf;
    Hundreds(ps.status);
  }

  /** When the body is to be skipped the message ends with its head, whatever its headers say. */
  lemma SkippedBody(ps: Parser, skip: bool)
    requires ps.state == Ending(HeadersDone) && ps.flags.skipBody
    ensures
      PassOf(ps, skip, LF)
   == Pass(ps.(state := NewMessage(ps)), Call(MessageComplete), true, if ps.upgrade then Exit else Control.Next)
  {
    HeadDonePass(ps, skip);
    hide PassOf;
  }

  lemma Hundreds(status: nat)
    ensures status / 100 == 1 <==> 100 <= status < 200
  {
  }

  lemma MessageDonePass(ps: Parser, skip: bool, ch: char)
    requires ps.state == State.Content(MessageDone)
    ensures PassOf(ps, skip, ch) == ContentPass(ps, MessageDone)
  {
    hide StartPass, StatusLinePass, TargetPass, VersionPass, FieldsPass, ChunkPass, EndingPass, ContentPass;
  }

  /** After a body that was chunked or had a length the next message follows exactly when the connection persists. */
  lemma ConnectionDecision(ps: Parser, skip: bool, ch: char)
    requires ps.state == State.Content(MessageDone) && (ps.flags.chunked || ps.length != ULLONG_MAX)
    ensures
      var r := PassOf(ps, skip, ch);
      r.effect == Call(MessageComplete) && Next(ps, r.ps.state) && (r.control.Exit? <==> ps.upgrade)
  {
    MessageDonePass(ps, skip, ch);
    hide PassOf;
  }

  lemma HeadAlmostDonePass(ps: Parser, skip: bool)
    requires ps.state == Ending(HeadersAlmostDone)
    ensures PassOf(ps, skip, LF) == EndingPass(ps, HeadersAlmostDone, LF)
  {
    hide StartPass, StatusLinePass, TargetPass, VersionPass, FieldsPass, ChunkPass, ContentPass, EndingPass;
  }

  // The same over the text of a head

  /** The headers ask for another protocol. */
  predicate AsksUpgrade(hs: seq<Header>) {
    Any(hs, SaysUpgrade) && Any(hs, SaysConnectionUpgrade)
  }

  /** Another protocol follows: it has been asked for, in a request or in a 101 response; or the method is CONNECT. */
  predicate Switches(ps: Parser, hs: seq<Header>) {
    if AsksUpgrade(hs) then ps.ptype.REQUEST? || ps.status == 101 else ps.verb.CONNECT?
  }

  /** The connection goes on after the message. */
  predicate GoesOn(ps: Parser, hs: seq<Header>) {
    if ps.major >= 1 && ps.minor >= 1 then !Any(hs, SaysClose) else Any(hs, SaysKeepAlive)
  }

  /** A response whose body could only be ended by the stream. */
  predicate ToTheEnd(ps: Parser, hs: seq<Header>) {
    !Any(hs, SaysChunked) && !Any(hs, SaysLength) && !ps.ptype.REQUEST? && !NeverBody(ps.status)
  }

  /** Where the next message is read from. */
  function NextState(ps: Parser, hs: seq<Header>): State {
    if GoesOn(ps, hs) && !ToTheEnd(ps, hs) then Start(if ps.ptype.REQUEST? then StartReq else StartRes) else Dead
  }

  /** What follows a head: a rejection, chunks, n bytes, the rest of the stream, another message, or another protocol. */
  datatype Body = Rejected | Chunks | Bytes(n: nat) | Rest | NoBody | OtherProtocol

  /** Section 3.3.3 of RFC 7230, with the upgrade: a Transfer-Encoding and a Content-Length together are rejected; else
      chunks; else the announced length; else no body in a request or a response that never has one; else the rest of
      the stream. A head after which the protocol is another one ends the call, unless it has a body with an end. */
  predicate Follows(ps: Parser, hs: seq<Header>, n: nat, body: Body) {
    var (chunked, sized) := (Any(hs, SaysChunked), Any(hs, SaysLength));
    var bounded := chunked || (sized && n > 0);
    match body
    case Rejected => chunked && sized
    case OtherProtocol => !(chunked && sized) && Switches(ps, hs) && (ps.verb.CONNECT? || !bounded)
    case Chunks => chunked && !sized && !(Switches(ps, hs) && ps.verb.CONNECT?)
    case Bytes(m) => m == n && !chunked && sized && n > 0 && !(Switches(ps, hs) && ps.verb.CONNECT?)
    case Rest => ToTheEnd(ps, hs) && !Switches(ps, hs)
    case NoBody => !chunked && !Switches(ps, hs) && (if sized then n == 0 else ps.ptype.REQUEST? || NeverBody(ps.status))
  }

  /** The parser after the last byte of a head, by what follows. */
  predicate Stands(ps: Parser, hs: seq<Header>, body: Body, s: State, control: Control, length: nat) {
    match body
    case Rejected => control == Fail(UNEXPECTED_CONTENT_LENGTH)
    case OtherProtocol => control == Exit && s == NextState(ps, hs)
    case Chunks => control == Control.Next && s == Chunk(ChunkSizeStart)
    case Bytes(n) => control == Control.Next && s == State.Content(BodyIdentity) && length == n
    case Rest => control == Control.Next && s == State.Content(BodyIdentityEof)
    case NoBody => control == Control.Next && s == NextState(ps, hs)
  }

  function BodyOf(ps: Parser, hs: seq<Header>, n: nat): Body {
    var (chunked, sized) := (Any(hs, SaysChunked), Any(hs, SaysLength));
    if chunked && sized then Rejected
    else if Switches(ps, hs) && (ps.verb.CONNECT? || !(chunked || (sized && n > 0))) then OtherProtocol
    else if chunked then Chunks
    else if sized && n > 0 then Bytes(n)
    else if ToTheEnd(ps, hs) then Rest
    else NoBody
  }

  /** Exactly one thing follows. */
  lemma OneFollows(ps: Parser, hs: seq<Header>, n: nat, body: Body)
    ensures Follows(ps, hs, n, body) <==> body == BodyOf(ps, hs, n)
  {
    hide Any, SaysChunked, SaysLength, SaysUpgrade, SaysConnectionUpgrade;
  }

  /** The message record after header lines. */
  predicate AfterLines(ps: Parser, hs: seq<Header>, ps': Parser) {
    && ps'.flags == FlagsOf(NO_FLAGS, hs) && LengthKnown(ps')
    && ps' == ps.(state := ps'.state, index := ps'.index, hstate := ps'.hstate, flags := ps'.flags, length := ps'.length)
  }

  /** The message record after the last byte of a head that is not rejected. */
  predicate AfterHead(ps: Parser, hs: seq<Header>, ps': Parser) {
    AfterLines(ps, hs, ps'.(upgrade := ps.upgrade)) && ps'.upgrade == Switches(ps, hs)
  }

  /** First the head is rejected or announced. */
  lemma AnnouncedOrRejected(ps: Parser, hs: seq<Header>, e: Parser, skip: bool)
    requires e.state == Ending(HeadersAlmostDone) && AfterLines(ps, hs, e)
    ensures
      PassOf(e, skip, LF)
   == if Any(hs, SaysChunked) && Any(hs, SaysLength) then Error(e, UNEXPECTED_CONTENT_LENGTH)
      else Pass(e.(state := Ending(HeadersDone), upgrade := Switches(ps, hs)), Call(HeadersComplete(HeadOf(e))), false, Again)
  {
    hide PassOf, Any, SaysChunked, SaysLength, SaysUpgrade, SaysConnectionUpgrade, SaysClose, SaysKeepAlive, LengthKnown;
    HeadAlmostDonePass(e, skip);
  }

  /** Then the rest is decided. */
  lemma DoneFollows(ps: Parser, hs: seq<Header>, e: Parser, skip: bool)
    requires e.state == Ending(HeadersDone) && AfterHead(ps, hs, e) && BodyOf(ps, hs, e.length) != Rejected
    ensures
      var (body, r) := (BodyOf(ps, hs, e.length), PassOf(e, skip, LF));
      && Stands(ps, hs, body, r.ps.state, r.control, r.ps.length) && r.ps == e.(state := r.ps.state) && r.reset
      && (r.control.Next? || r.control.Exit?)
      && r.effect == if body == OtherProtocol || body == NoBody then Call(MessageComplete) else Nothing
  {
    hide PassOf, Any, SaysChunked, SaysLength, SaysUpgrade, SaysConnectionUpgrade, SaysClose, SaysKeepAlive, Switches;
    DoneDecision(e, skip);
  }

  lemma RejectedStep(c: Config, ps: Parser, hs: seq<Header>)
    requires c.ps.state == Ending(HeadersAlmostDone) && AfterLines(ps, hs, c.ps) && c.pend == None
    requires BodyOf(ps, hs, c.ps.length) == Rejected
    ensures
      var (d, control) := Passes(c, LF);
      d.ps == c.ps && control == Fail(UNEXPECTED_CONTENT_LENGTH) && d.calls == c.calls && d.pend == None && !d.skip
  {
    AnnouncedOrRejected(ps, hs, c.ps, c.skip);
    hide PassOf, Any, SaysChunked, SaysLength, NextState, Switches, ToTheEnd, FlagsOf, LengthKnown;
    assert Passes(c, LF) == (After(c, LF), PassOf(c.ps, c.skip, LF).control);
    assert c.calls + [] == c.calls;
  }

  lemma AnnouncedStep(c: Config, ps: Parser, hs: seq<Header>) returns (c1: Config)
    requires c.ps.state == Ending(HeadersAlmostDone) && AfterLines(ps, hs, c.ps) && c.pend == None
    requires BodyOf(ps, hs, c.ps.length) != Rejected
    ensures Passes(c, LF) == Passes(c1, LF) && c1.calls == c.calls + [HeadersComplete(HeadOf(c.ps))] && c1.pend == None
    ensures c1.ps == c.ps.(state := Ending(HeadersDone), upgrade := Switches(ps, hs)) && AfterHead(ps, hs, c1.ps)
  {
    AnnouncedOrRejected(ps, hs, c.ps, c.skip);
    hide PassOf, Any, SaysChunked, SaysLength, NextState, Switches, ToTheEnd, FlagsOf;
    c1 := After(c, LF);
    assert Passes(c, LF) == Passes(c1, LF);
  }

  lemma DoneStep(c: Config, ps: Parser, hs: seq<Header>)
    requires c.ps.state == Ending(HeadersDone) && AfterHead(ps, hs, c.ps) && c.pend == None && BodyOf(ps, hs, c.ps.length) != Rejected
    ensures
      var body := BodyOf(ps, hs, c.ps.length);
      var (d, control) := Passes(c, LF);
      && Stands(ps, hs, body, d.ps.state, control, d.ps.length) && d.ps == c.ps.(state := d.ps.state) && d.pend == None && !d.skip && d.n == 0
      && d.calls == c.calls + if body == OtherProtocol || body == NoBody then [MessageComplete] else []
  {
    DoneFollows(ps, hs, c.ps, c.skip);
    hide PassOf, Stands, BodyOf, AfterHead;
    assert Passes(c, LF) == (After(c, LF), PassOf(c.ps, c.skip, LF).control);
  }

  /** The last byte of a head. */
  lemma LastByteDecides(c: Config, ps: Parser, hs: seq<Header>)
    requires c.ps.state == Ending(HeadersAlmostDone) && AfterLines(ps, hs, c.ps) && c.pend == None
    ensures
      var body := BodyOf(ps, hs, c.ps.length);
      var (d, control) := Passes(c, LF);
      && Stands(ps, hs, body, d.ps.state, control, d.ps.length) && d.pend == None && !d.skip && d.ps.length == c.ps.length
      && d.calls == c.calls + EndCalls(body, HeadOf(c.ps))
      && (body != Rejected ==> AfterHead(ps, hs, d.ps) && d.n == 0)
  {
    TwoCalls(c.calls, HeadersComplete(HeadOf(c.ps)));
    if BodyOf(ps, hs, c.ps.length) == Rejected {
      RejectedStep(c, ps, hs);
      hide Passes, BodyOf, AfterLines, AfterHead;
    } else {
      var c1 := AnnouncedStep(c, ps, hs);
      DoneStep(c1, ps, hs);
      hide Passes, BodyOf, Stands, FlagsOf, LengthKnown, Switches;
    }
  }

  /** The callbacks with the last byte of a head. */
  function EndCalls(body: Body, head: Head): seq<Event> {
    match body
    case Rejected => []
    case OtherProtocol => [HeadersComplete(head), MessageComplete]
    case NoBody => [HeadersComplete(head), MessageComplete]
    case Chunks => [HeadersComplete(head)]
    case Bytes(_) => [HeadersComplete(head)]
    case Rest => [HeadersComplete(head)]
  }

  function HeadOf(ps: Parser): Head {
    Head(ps.major, ps.minor, ps.status, ps.verb, ps.length)
  }

  lemma TwoCalls(calls: seq<Event>, e: Event)
    ensures calls + [e] + [] == calls + [e] && calls + [] == calls
    ensures calls + [e] + [MessageComplete] == calls + [e, MessageComplete]
  {
  }

  lemma StandsOne(ps: Parser, hs: seq<Header>, b1: Body, b2: Body, s: State, control: Control, length: nat)
    requires Stands(ps, hs, b1, s, control, length) && Stands(ps, hs, b2, s, control, length)
    ensures b1 == b2
  {
    hide GoesOn, ToTheEnd;
  }

  /** A length is known exactly if a header says one. */
  lemma KnownLength(hs: seq<Header>, n: nat)
    requires LengthOf(ULLONG_MAX, hs, n)
    ensures Any(hs, SaysLength) <==> n != ULLONG_MAX
  {
    hide Any, IsLength, SaysLength;
    if Any(hs, SaysLength) {
      var h :| h in hs && SaysLength(h) && IsNumber(h.value, n);
      NumberFits(h.value, n);
    }
  }

  lemma NumberFits(v: string, n: nat)
    requires IsNumber(v, n)
    ensures n < ULLONG_MAX
  {
  }

  /** What follows a head is decided by its headers, and by type, version, status and method: the header lines are
      delivered, and with the last byte of the blank line each of the six things follows if and only if the headers say
      so, one of them always; the length is the one that a Content-Length says, or the sentinel. */
  lemma HeadDecision(c: Config, ls: seq<Line>, blank: string) returns (d: Config, control: Control)
    requires c.ps.state == Fields(FieldStart) && c.pend == None && !c.skip && c.ps.flags == NO_FLAGS && c.ps.length == ULLONG_MAX
    requires GoodLines(c.ps.lenient, false, ls) && IsLineEnd(blank)
    ensures EndsIn(c, LinesText(ls) + blank, d, control) && d.pend == None && !d.skip
    ensures ReadBefore(c, LinesText(ls) + blank).calls <= c.calls + HeaderCalls(HeadersOf(ls))
    ensures
      var (hs, n) := (HeadersOf(ls), d.ps.length);
      && LengthOf(ULLONG_MAX, hs, n)
      && (forall body :: Follows(c.ps, hs, n, body) <==> Stands(c.ps, hs, body, d.ps.state, control, n))
      && (forall body :: Follows(c.ps, hs, n, body) ==> d.calls == c.calls + HeaderCalls(hs) + EndCalls(body, HeadOf(d.ps)))
      && Follows(c.ps, hs, n, BodyOf(c.ps, hs, n))
      && (BodyOf(c.ps, hs, n) != Rejected ==> AfterHead(c.ps, hs, d.ps) && d.n == 0)
  {
    var e;
    d, control, e := ReadHeadLines(c, ls, blank);
    hide Passes, Follows, Stands, BodyOf, AfterLines, LengthOf, EndsIn, HeadersOf, AfterHead;
    var (hs, n) := (HeadersOf(ls), d.ps.length);
    LastByteDecides(e, c.ps, hs);
    assert HeadOf(d.ps) == HeadOf(e.ps) || BodyOf(c.ps, hs, n) == Rejected by { SameHead(c.ps, hs, e.ps, d.ps); }
    var b := BodyOf(c.ps, hs, n);
    forall body ensures Follows(c.ps, hs, n, body) <==> body == b {
      OneFollows(c.ps, hs, n, body);
    }
    forall body | Stands(c.ps, hs, body, d.ps.state, control, n) ensures body == b {
      StandsOne(c.ps, hs, body, b, d.ps.state, control, n);
    }
  }

  lemma SameHead(ps: Parser, hs: seq<Header>, e: Parser, d: Parser)
    requires AfterLines(ps, hs, e) && e.length == d.length && (AfterHead(ps, hs, d) || BodyOf(ps, hs, d.length) == Rejected)
    ensures HeadOf(d) == HeadOf(e) || BodyOf(ps, hs, d.length) == Rejected
  {
    hide FlagsOf, LengthKnown, BodyOf, Switches;
  }

  lemma ReadHeadLines(c: Config, ls: seq<Line>, blank: string) returns (d: Config, control: Control, e: Config)
    requires c.ps.state == Fields(FieldStart) && c.pend == None && !c.skip && c.ps.flags == NO_FLAGS && c.ps.length == ULLONG_MAX
    requires GoodLines(c.ps.lenient, false, ls) && IsLineEnd(blank)
    ensures EndsIn(c, LinesText(ls) + blank, d, control) && (d, control) == Passes(e, LF)
    ensures e.ps.state == Ending(HeadersAlmostDone) && AfterLines(c.ps, HeadersOf(ls), e.ps) && e.pend == None
    ensures e.calls == c.calls + HeaderCalls(HeadersOf(ls)) && LengthOf(ULLONG_MAX, HeadersOf(ls), e.ps.length)
    ensures ReadBefore(c, LinesText(ls) + blank).calls <= e.calls
  {
    hide Read, PassOf, GoodHeaders, LinesText, LengthOf, Any, HeadersOf, NextHeader, FlagsOf, Passes, EndsIn;
    var b, c1 := ReadHeaders(c, ls);
    var b1;
    b1, e := ReadBlankLine(c1, blank);
    KnownLength(HeadersOf(ls), e.ps.length);
    SaysLengthFlag(HeadersOf(ls));
    d, control := Passes(Count(b1), LF).0, Passes(Count(b1), LF).1;
    EndsBlank(c1, blank, b1, d, control);
    ReadyReads(b, c1, blank);
    EndsJoin(c, LinesText(ls), blank, d, control);
    BeforeBlank(c, ls, blank, b, c1, b1);
  }

  /** The parser before the last byte of a text. */
  function ReadBefore(c: Config, s: string): Config {
    if s != "" && Read(c, s[..|s| - 1]).Some? then Read(c, s[..|s| - 1]).value else c
  }

  lemma BeforeBlank(c: Config, ls: seq<Line>, blank: string, b: Config, c1: Config, b1: Config)
    requires Read(c, LinesText(ls)) == Some(b) && Ready(b, c1) && IsLineEnd(blank)
    requires Read(c1, blank[..|blank| - 1]) == Some(b1) && b1.calls == c1.calls
    ensures ReadBefore(c, LinesText(ls) + blank).calls <= c1.calls
  {
    hide Read, LinesText;
    var s := LinesText(ls) + blank;
    var t := blank[..|blank| - 1];
    assert s[..|s| - 1] == LinesText(ls) + t;
    ReadJoin(c, LinesText(ls), t);
    if t == "" {
      ReadNothing(b);
    } else {
      ReadyReads(b, c1, t);
    }
  }

  lemma EndsBlank(c: Config, blank: string, b: Config, d: Config, control: Control)
    requires blank != "" && blank[|blank| - 1] == LF && Read(c, blank[..|blank| - 1]) == Some(b)
    requires !InGeneralValue(b.ps) && Passes(Count(b), LF) == (d, control)
    ensures EndsIn(c, blank, d, control)
  {
    hide Read, Passes, Count;
  }

  lemma SaysLengthFlag(hs: seq<Header>)
    ensures FlagsOf(NO_FLAGS, hs).contentLength == Any(hs, SaysLength)
  {
    hide Any;
  }

  /** So the connection goes on after a body exactly when the headers say so. */
  lemma PersistsAsSaid(ps: Parser, hs: seq<Header>, ps': Parser)
    requires AfterLines(ps, hs, ps')
    ensures Persists(ps') <==> GoesOn(ps, hs)
  {
    hide Any, LengthKnown;
  }
}
