/** The size of a head that the parser takes: every byte of it is counted, once. */
module HeadSizes {
  import opened Http
  import opened Machine
  import opened Budget
  import opened Reading
  import opened Counting
  import opened HeaderLines
  import opened HeadReading
  import opened Framing
  import opened Chunked
  import opened Messages

  lemma OpeningNoEnd(s: State, o: Opening)
    ensures NoEnd(OpeningCalls(s, o))
  {
  }

  /** The count of a head, at its last byte. */
  lemma HeadPeak(c: Config, m: Message, h: Config, control: Control)
    requires c.calls == [] && c.n == c.peak == 0 && InPart(c.ps) && EndsIn(c, HeadOfText(m), h, control)
    requires ReadBefore(c, HeadOfText(m)).calls <= c.calls + (OpeningCalls(c.ps.state, m.opening) + HeaderCalls(HeadersOf(m.lines)))
    ensures h.peak == |HeadOfText(m)|
  {
    OpeningNoEnd(c.ps.state, m.opening);
    HeadersNoEnd(HeadersOf(m.lines));
    hide Read, Passes, OpeningCalls, HeaderCalls, HeadersOf, HeadOfText, InPart, EndsPart;
    var s := HeadOfText(m);
    var b := Read(c, s[..|s| - 1]).value;
    var all := OpeningCalls(c.ps.state, m.opening) + HeaderCalls(HeadersOf(m.lines));
    assert b.calls <= all;
    assert forall e | e in b.calls :: e in all;
    assert b.calls[|c.calls|..] == b.calls;
    ReadCounts(c, s[..|s| - 1]);
    CountInPart(b);
  }

  lemma LastState(m: Message, n: Parser)
    requires Ended(m, n) && Following(m) != Rejected
    ensures !InHeaderLoop(n.state)
  {
    hide Following, AllHeaders, GoesOn, ToTheEnd, Settled;
  }

  /** The run of a new parser over a message in one buffer. */
  predicate RunOf(m: Message, r: RunResult) {
    && r.outcome == EndOutcome(EndControl(m)) && r.at == StoppedAt(EndControl(m), |MessageText(m)|) && Ended(m, r.c.ps)
    && r.c.calls == MessageCalls(Start(StartReqOrRes), m)
  }

  lemma RunMessage(m: Message)
    requires GoodMessage(m)
    ensures
      var r := RunBuffer(Config(Init(BOTH), false, 0, 0, [], None), MessageText(m));
      RunOf(m, r) && r.c.peak == LoadPeak(|HeadOfText(m)|, m.load)
  {
    var c := Config(Init(BOTH), false, 0, 0, [], None);
    FreshParser(m.opening);
    assert Begin(c) == c && InPart(c.ps) && c.ps.state == Start(StartReqOrRes);
    hide GoodMessage, HeadOfText, MessageText, MessageCalls, EndsIn, Settled, MayOpen, Ended, Following, HeadRead, Begin, EndControl, InPart,
         Run;
    var d, h, control := ReadMessage(c, m);
    HeadPeak(c, m, h, control);
    RunTo(c, m, d);
    assert [] + MessageCalls(c.ps.state, m) == MessageCalls(c.ps.state, m);
  }

  lemma RunTo(c: Config, m: Message, d: Config)
    requires Begin(c) == c && EndsIn(c, MessageText(m), d, EndControl(m)) && MessageRead(c, m, d)
    ensures
      var r := RunBuffer(c, MessageText(m));
      && r.outcome == EndOutcome(EndControl(m)) && r.at == StoppedAt(EndControl(m), |MessageText(m)|) && Ended(m, r.c.ps)
      && r.c.calls == c.calls + MessageCalls(c.ps.state, m) && r.c.peak == d.peak
  {
    hide MessageText, MessageCalls, EndsIn, Following, EndControl, Begin, Run, NextState, Settled, Read;
    var s := MessageText(m);
    if EndControl(m).Next? {
      EndsRead(c, s, d);
      var skip := RunWhole(c, s);
      assert RunBuffer(c, s).c == End(d.(skip := skip));
    } else {
      assert s <= s;
      BufferStops(c, s, s, d, EndControl(m));
      StopsDone(m);
    }
  }

  /** A message that stops the run does not end with the stream. */
  lemma StopsDone(m: Message)
    requires !EndControl(m).Next?
    ensures !Following(m).Rest?
  {
  }

  /** The head has at most 81920 bytes, and so has, of a chunked body, every line with a size, line end included, and the
      trailers with the blank line after them. */
  predicate InBudget(m: Message) {
    && |HeadOfText(m)| <= 81920
    && (m.load.InChunks? ==>
          && (forall k | k in m.load.body.chunks :: |k.line| + 2 <= 81920) && |m.load.body.last| + 2 <= 81920
          && |LinesText(m.load.body.trailers)| + |m.load.body.blank| <= 81920)
  }

  lemma {:induction false} LinesWithin(p: nat, ks: seq<ChunkText>, limit: nat)
    ensures LinesPeak(p, ks) <= limit <==> p <= limit && forall k | k in ks :: |k.line| + 2 <= limit
    decreases |ks|
  {
    if ks != [] {
      LinesWithin(Higher(p, |ks[0].line| + 2), ks[1..], limit);
      assert ks == [ks[0]] + ks[1..];
    }
  }

  lemma PeakWithin(m: Message)
    ensures LoadPeak(|HeadOfText(m)|, m.load) <= 81920 <==> InBudget(m)
  {
    hide HeadOfText, LinesText, LinesPeak;
    if m.load.InChunks? { LinesWithin(|HeadOfText(m)|, m.load.body.chunks, 81920); }
  }

  /** A message is within the budget exactly if its head, and the lines and trailers of a chunked body, are. */
  lemma HeadBound(m: Message)
    requires GoodMessage(m) && Following(m) != Rejected
    ensures Spend(Begin(Config(Init(BOTH), false, 0, 0, [], None)), MessageText(m), 0).Over? <==> !InBudget(m)
  {
    var c := Config(Init(BOTH), false, 0, 0, [], None);
    RunMessage(m);
    PeakWithin(m);
    var r := RunBuffer(c, MessageText(m));
    LastState(m, r.c.ps);
    NotFailed(m);
    BeginZero(c);
    hide GoodMessage, HeadOfText, MessageText, MessageCalls, Ended, Following, EndControl, Spend, InHeaderLoop, Begin, Run, InBudget, LoadPeak;
    SpendCuts(Begin(c), MessageText(m), 0);
    SpendKeeps(Begin(c), MessageText(m), 0);
  }

  lemma BeginZero(c: Config)
    ensures Begin(c).n == c.n && Begin(c).peak == c.peak
  {
  }

  lemma NotFailed(m: Message)
    requires Following(m) != Rejected
    ensures !EndOutcome(EndControl(m)).Failed?
  {
    hide Following, Switches;
  }
}
