/** A whole header, from its first byte to the byte that shows that no more lines of it follow, and lists of them. */
module HeaderLines {
  import opened Characters
  import opened Http
  import opened Machine
  import opened Alphabets
  import opened Names
  import opened Reading
  import opened Values
  import opened Lists
  import opened Connections

  /** A further line of a header: the line end before it, and its text, which begins with a blank. */
  datatype Fold = Fold(end: string, text: string)

  datatype Header = Header(name: string, value: string, folds: seq<Fold>)

  predicate IsBlank(ch: char) {
    ch == SP || ch == HT
  }

  /** The two ways in which a line may end. */
  predicate IsLineEnd(s: string) {
    s == [CR, LF] || s == [LF]
  }

  predicate GoodFold(lenient: bool, f: Fold) {
    IsLineEnd(f.end) && f.text != "" && IsBlank(f.text[0]) && NoEol(f.text) && Legal(lenient, f.text)
  }

  predicate GoodFolds(lenient: bool, fs: seq<Fold>) {
    forall f | f in fs :: GoodFold(lenient, f)
  }

  predicate IsNamed(h: Header, word: string) {
    LowerCase(h.name) == word
  }

  /** The headers the parser takes: token names; legal values without line ends or leading blanks; further lines that
      begin with a blank; and a length that is a number, once. `known` says that a length has been seen before. */
  ghost predicate GoodHeader(lenient: bool, known: bool, h: Header) {
    && h.name != "" && AllTokens(h.name)
    && NoEol(h.value) && Legal(lenient, h.value)
    && (h.value != "" ==> !IsBlank(h.value[0]))
    && GoodFolds(lenient, h.folds) && (h.folds != [] ==> h.value != "")
    && (IsNamed(h, CONTENT_LENGTH) ==> !known && exists k: nat :: IsLength(h.value, k))
  }

  // What headers say

  /** Transfer-Encoding: chunked, in one line */
  predicate SaysChunked(h: Header) {
    IsNamed(h, TRANSFER_ENCODING) && IsWord(h.value, CHUNKED) && h.folds == []
  }

  /** Upgrade, with a value */
  predicate SaysUpgrade(h: Header) {
    IsNamed(h, UPGRADE) && h.value != ""
  }

  /** Content-Length */
  predicate SaysLength(h: Header) {
    IsNamed(h, CONTENT_LENGTH)
  }

  predicate IsConnection(h: Header) {
    IsNamed(h, CONNECTION) || IsNamed(h, PROXY_CONNECTION)
  }

  /** A list that stands before the next element to look at: after a comma, and spaces. */
  predicate AtElement(v: string) {
    ModeAfter(Earlier(v)).Look? && Trim(Current(v)) == ""
  }

  /** The elements of a list that are looked at when it goes on in further lines. A line that begins where an element is
      awaited goes on with the list, its first blank being a space; any other one gives up the element before it, and the
      rest of the header. */
  function LookedIn(v: string, fs: seq<Fold>): seq<string>
    decreases |fs|
  {
    if fs == [] then LookedAt(Elements(v))
    else if AtElement(v) && fs[0].text != "" then LookedIn(v + ([SP] + fs[0].text[1..]), fs[1..])
    else LookedAt(Earlier(v))
  }

  /** Connection: keep-alive, as an element that the parser looks at; and the other two. */
  predicate SaysKeepAlive(h: Header) {
    IsConnection(h) && Has(LookedIn(h.value, h.folds), KEEP_ALIVE)
  }

  predicate SaysClose(h: Header) {
    IsConnection(h) && Has(LookedIn(h.value, h.folds), CLOSE)
  }

  predicate SaysConnectionUpgrade(h: Header) {
    IsConnection(h) && Has(LookedIn(h.value, h.folds), UPGRADE)
  }

  /** A value that is a word in any case, and spaces. */
  predicate IsPlain(v: string, w: string) {
    |v| >= |w| && IsSpelled(v[..|w|], w) && forall i | |w| <= i < |v| :: v[i] == ' '
  }

  /** What headers say, in plain letters. */
  lemma SaysInLetters(h: Header)
    ensures SaysChunked(h) <==> IsSpelled(h.name, "transfer-encoding") && IsPlain(h.value, "chunked") && h.folds == []
    ensures SaysLength(h) <==> IsSpelled(h.name, "content-length")
    ensures SaysUpgrade(h) <==> IsSpelled(h.name, "upgrade") && h.value != ""
    ensures
      var list := IsSpelled(h.name, "connection") || IsSpelled(h.name, "proxy-connection");
      var looked := LookedIn(h.value, h.folds);
      && (SaysClose(h) <==> list && exists e | e in looked :: IsPlain(Trim(e), "close"))
      && (SaysKeepAlive(h) <==> list && exists e | e in looked :: IsPlain(Trim(e), "keep-alive"))
      && (SaysConnectionUpgrade(h) <==> list && exists e | e in looked :: IsPlain(Trim(e), "upgrade"))
  {
    hide LowerCase, IsSpelled, LookedIn, Trim, IsWord, IsPlain;
    SpelledNames(h.name);
    PlainWords(h.value);
    forall e { PlainWords(Trim(e)); }
  }

  lemma PlainWords(t: string)
    ensures IsWord(t, CHUNKED) <==> IsPlain(t, "chunked")
    ensures IsWord(t, KEEP_ALIVE) <==> IsPlain(t, "keep-alive")
    ensures IsWord(t, CLOSE) <==> IsPlain(t, "close")
    ensures IsWord(t, UPGRADE) <==> IsPlain(t, "upgrade")
  {
    SpelledWords(t);
    hide IsWord, IsSpelled;
  }

  predicate Any(hs: seq<Header>, says: Header -> bool) {
    exists h | h in hs :: says(h)
  }

  /** The flags after a list of headers: each is set if it was before, or if some header says so. */
  function FlagsOf(f: Flags, hs: seq<Header>): Flags {
    f.(chunked := f.chunked || Any(hs, SaysChunked),
       upgrade := f.upgrade || Any(hs, SaysUpgrade),
       contentLength := f.contentLength || Any(hs, SaysLength),
       connectionKeepAlive := f.connectionKeepAlive || Any(hs, SaysKeepAlive),
       connectionClose := f.connectionClose || Any(hs, SaysClose),
       connectionUpgrade := f.connectionUpgrade || Any(hs, SaysConnectionUpgrade))
  }

  lemma FlagsKept(f: Flags, hs: seq<Header>)
    ensures FlagsOf(f, hs).trailing == f.trailing && FlagsOf(f, hs).skipBody == f.skipBody
  {
  }

  /** The length after a list of headers: what a Content-Length says, or as before. */
  ghost predicate LengthOf(n: nat, hs: seq<Header>, n': nat) {
    if Any(hs, SaysLength) then exists h :: h in hs && SaysLength(h) && IsNumber(h.value, n') else n' == n
  }

  /** What a list of headers does to the message record, exactly. */
  ghost predicate HeadersEffect(ps: Parser, hs: seq<Header>, ps': Parser) {
    && ps' == ps.(state := Fields(FieldStart), index := ps'.index, hstate := ps'.hstate, flags := FlagsOf(ps.flags, hs), length := ps'.length)
    && LengthOf(ps.length, hs, ps'.length)
  }

  /** The flags and the length after one header, by its name. */
  ghost predicate HeaderEffect(f: Flags, n: nat, h: Header, f': Flags, n': nat) {
    var k := NameClass(LowerCase(h.name));
    if k.ContentLength? then f' == f.(contentLength := true) && IsNumber(h.value, n')
    else
      && n' == n
      && if k.TransferEncoding? then f' == if IsWord(h.value, CHUNKED) && h.folds == [] then f.(chunked := true) else f
         else if k.Upgrade? then f' == if h.value == "" then f else f.(upgrade := true)
         else if k.Connection? then FlagsAre(f, f', LookedIn(h.value, h.folds))
         else f' == f
  }

  lemma AnyOne(h: Header, says: Header -> bool)
    ensures Any([h], says) <==> says(h)
    ensures !Any([], says)
  {
    assert h in [h];
  }

  function FlagsWith(f: Flags, h: Header): Flags {
    f.(chunked := f.chunked || SaysChunked(h),
       upgrade := f.upgrade || SaysUpgrade(h),
       contentLength := f.contentLength || SaysLength(h),
       connectionKeepAlive := f.connectionKeepAlive || SaysKeepAlive(h),
       connectionClose := f.connectionClose || SaysClose(h),
       connectionUpgrade := f.connectionUpgrade || SaysConnectionUpgrade(h))
  }

  lemma FlagsOfOne(f: Flags, h: Header)
    ensures FlagsOf(f, [h]) == FlagsWith(f, h)
  {
    hide Any;
    AnyOne(h, SaysChunked);
    AnyOne(h, SaysUpgrade);
    AnyOne(h, SaysLength);
    AnyOne(h, SaysKeepAlive);
    AnyOne(h, SaysClose);
    AnyOne(h, SaysConnectionUpgrade);
  }

  lemma EffectFlags(f: Flags, n: nat, h: Header, f': Flags, n': nat)
    requires HeaderEffect(f, n, h, f', n')
    ensures f' == FlagsWith(f, h) && (if SaysLength(h) then IsNumber(h.value, n') else n' == n)
  {
    hide NameClass, LowerCase, IsNumber, SaysChunked, SaysUpgrade, SaysLength, SaysKeepAlive, SaysClose, SaysConnectionUpgrade,
         IsWord, FlagsAre, LookedIn;
    SaidByName(h);
    if NameClass(LowerCase(h.name)).Connection? { SaidByConnection(f, h, f'); }
  }

  /** What a header can say, by its name. */
  lemma SaidByName(h: Header)
    ensures
      var k := NameClass(LowerCase(h.name));
      && (SaysLength(h) <==> k.ContentLength?)
      && (SaysChunked(h) <==> k.TransferEncoding? && IsWord(h.value, CHUNKED) && h.folds == [])
      && (SaysUpgrade(h) <==> k.Upgrade? && h.value != "")
      && (SaysKeepAlive(h) || SaysClose(h) || SaysConnectionUpgrade(h) ==> k.Connection?)
  {
    hide IsNamed, IsWord, Has, NameClass, LowerCase;
    NamedBy(h);
  }

  lemma SaidByConnection(f: Flags, h: Header, f': Flags)
    requires NameClass(LowerCase(h.name)).Connection? && FlagsAre(f, f', LookedIn(h.value, h.folds))
    ensures
      f' == f.(connectionKeepAlive := f.connectionKeepAlive || SaysKeepAlive(h), connectionClose := f.connectionClose || SaysClose(h),
               connectionUpgrade := f.connectionUpgrade || SaysConnectionUpgrade(h))
  {
    hide IsNamed, Has, NameClass, LowerCase, LookedIn;
    NamedBy(h);
  }

  lemma NamedBy(h: Header)
    ensures
      var k := NameClass(LowerCase(h.name));
      && (IsNamed(h, CONTENT_LENGTH) <==> k.ContentLength?) && (IsNamed(h, TRANSFER_ENCODING) <==> k.TransferEncoding?)
      && (IsNamed(h, UPGRADE) <==> k.Upgrade?) && (IsNamed(h, CONNECTION) || IsNamed(h, PROXY_CONNECTION) <==> k.Connection?)
  {
    hide NameClass, LowerCase;
    NameMeaning(LowerCase(h.name));
  }

  lemma EffectOfOne(f: Flags, n: nat, h: Header, f': Flags, n': nat)
    requires HeaderEffect(f, n, h, f', n')
    ensures f' == FlagsOf(f, [h]) && LengthOf(n, [h], n')
  {
    hide HeaderEffect, FlagsOf, FlagsWith, SaysLength, IsNumber, Any;
    EffectFlags(f, n, h, f', n');
    FlagsOfOne(f, h);
    AnyOne(h, SaysLength);
    assert h in [h];
  }

  lemma {:induction false} ReadGeneralRest(c: Config, u: string, rest: string)
    requires Collects(c, u) && c.ps.hstate.General? && NoEol(rest) && Legal(c.ps.lenient, rest)
    ensures
      Read(c, rest).Some? &&
      var d := Read(c, rest).value;
      Collects(d, u + rest) && d.calls == c.calls && d.ps == c.ps
    decreases |rest|
  {
    hide Read, ValueChar;
    if rest == "" {
      assert u + rest == u;
      ReadNothing(c);
    } else {
      var ch := rest[0];
      assert rest == [ch] + rest[1..];
      assert u + rest == u + [ch] + rest[1..];
      ListPass(c.ps, ch);
      GeneralStays(ch, c.ps.index, c.ps.flags);
      var d := ReadValueByte(c, u, ch, rest[1..]);
      ReadGeneralRest(d, u + [ch], rest[1..]);
    }
  }

  lemma GeneralStays(ch: char, i: nat, f: Flags)
    ensures ListChar(General, i, ch) == (General, i) && FinishFlags(General, f) == f
  {
  }

  /** The value of a header the parser does not know, or of Upgrade. */
  lemma ReadGeneralValue(c: Config, v: string)
    requires v != "" && AtValue(c.ps, v[0]) && c.pend == None && NoEol(v) && Legal(c.ps.lenient, v)
    requires c.ps.hstate !in {HeaderState.ContentLength, HeaderState.TransferEncoding, HeaderState.Connection, MatchingConnectionTokenStart}
    ensures
      Read(c, v).Some? &&
      var d := Read(c, v).value;
      && Collects(d, v) && d.calls == c.calls && d.ps.hstate.General?
      && d.ps == c.ps.(state := Fields(InValue), hstate := General, index := 0, flags := if c.ps.hstate.Upgrade? then c.ps.flags.(upgrade := true) else c.ps.flags)
  {
    hide Read, ValueChar;
    var ch := v[0];
    assert v == [ch] + v[1..];
    var d := ReadFirstValueByte(c, ch, v[1..]);
    ReadGeneralRest(d, [ch], v[1..]);
  }

  /** What the parser holds after the first line of a value of which it does not yet know whether it goes on. */
  predicate Unfinished(h: HeaderState, f: Flags, ps: Parser) {
    if h.TransferEncoding? then
      ps.flags == f && ps.hstate in {MatchingTransferEncodingChunked, TransferEncodingChunked, General}
    else ps.hstate in {ContentLengthNum, ContentLengthWs, General}
  }

  /** The first line of a value other than a Connection list, with the flags as they are if the header ends with it. */
  lemma ReadValue(c: Config, h: Header) returns (d: Config)
    requires c.ps.state == Fields(DiscardWs) && c.pend == None && c.ps.hstate == NameClass(LowerCase(h.name))
    requires h.value != "" && GoodHeader(c.ps.lenient, c.ps.flags.contentLength, h) && h.folds == [] && !c.ps.hstate.Connection?
    ensures Read(c, h.value) == Some(d) && Collects(d, h.value) && d.calls == c.calls
    ensures d.ps == c.ps.(state := Fields(InValue), index := d.ps.index, hstate := d.ps.hstate, flags := d.ps.flags, length := d.ps.length)
    ensures HeaderEffect(c.ps.flags, c.ps.length, h, FinishFlags(d.ps.hstate, d.ps.flags), d.ps.length)
    ensures Unfinished(c.ps.hstate, c.ps.flags, d.ps)
  {
    NameMeaning(LowerCase(h.name));
    hide Read, IsWord, IsLength, LookedIn, NameClass, LowerCase, AllTokens;
    var s := c.ps.hstate;
    if s.ContentLength? {
      ContentLengthExact(c, h.value);
    } else if s.TransferEncoding? {
      ChunkedExact(c, h.value);
    } else {
      NameClasses(LowerCase(h.name));
      ReadGeneralValue(c, h.value);
    }
    d := Read(c, h.value).value;
  }

  lemma NameClasses(u: string)
    ensures !NameClass(u).MatchingConnectionTokenStart?
    ensures FinishFlags(NameClass(u), NO_FLAGS) == NO_FLAGS
    ensures forall f :: FinishFlags(NameClass(u), f) == f
  {
  }

  lemma BlankPass(ps: Parser, skip: bool, ch: char)
    requires ps.state == Fields(DiscardWs) && ch in {SP, HT, CR, LF}
    ensures PassOf(ps, skip, ch)
         == if ch == SP || ch == HT then Stay(ps) else To(ps, Fields(if ch == CR then DiscardWsAlmostDone else DiscardLws))
  {
    hide StartPass, StatusLinePass, TargetPass, VersionPass, EndingPass, ChunkPass, ContentPass, FirstValueChar;
  }

  lemma LinePass(ps: Parser, skip: bool)
    requires ps.state == Fields(DiscardWsAlmostDone)
    ensures PassOf(ps, skip, LF) == To(ps, Fields(DiscardLws))
  {
    hide StartPass, StatusLinePass, TargetPass, VersionPass, EndingPass, ChunkPass, ContentPass, FirstValueChar;
  }

  /** The byte after a line end that is not folded. */
  lemma UnfoldedPass(ps: Parser, skip: bool, ch: char)
    requires ps.state in {Fields(ValueLws), Fields(DiscardLws)} && ch != SP && ch != HT
    ensures PassOf(ps, skip, ch)
         == Pass(Finish(ps).(state := Fields(FieldStart)), if ps.state == Fields(ValueLws) then Nothing else Empty(Kind.Value), false, Again)
  {
    hide StartPass, StatusLinePass, TargetPass, VersionPass, EndingPass, ChunkPass, ContentPass, FirstValueChar, Finish;
  }

  /** From the end of a line on, the parser is as good as at the start of the next header. */
  function NextHeader(c: Config): Config {
    c.(ps := Finish(c.ps).(state := Fields(FieldStart)),
       calls := if c.ps.state == Fields(ValueLws) then c.calls else c.calls + [Data(Kind.Value, "")])
  }

  /** The parser b between header lines is d, or as good as d. */
  predicate Ready(b: Config, d: Config) {
    && b.pend == d.pend == None && !b.skip && !d.skip && d.ps.state == Fields(FieldStart)
    && (b == d || (b.ps.state in {Fields(ValueLws), Fields(DiscardLws)} && d == NextHeader(b)))
  }

  lemma ReadyByte(b: Config, d: Config, ch: char)
    requires Ready(b, d) && ch != SP && ch != HT
    ensures Passes(Count(b), ch) == Passes(Count(d), ch)
  {
    hide PassOf, Finish;
    if b != d {
      UnfoldedPass(b.ps, b.skip, ch);
      assert b.calls + [] == b.calls;
      assert After(Count(b), ch) == Count(d);
    }
  }

  /** What follows a header line that is not folded. */
  lemma ReadyReads(b: Config, d: Config, rest: string)
    requires Ready(b, d) && rest != "" && rest[0] != SP && rest[0] != HT
    ensures Read(b, rest) == Read(d, rest)
    ensures forall x, control :: EndsIn(d, rest, x, control) ==> EndsIn(b, rest, x, control)
  {
    hide Passes, Count, Read;
    ReadyByte(b, d, rest[0]);
    assert rest == [rest[0]] + rest[1..];
    ReadFirst(b, rest[0], rest[1..]);
    ReadFirst(d, rest[0], rest[1..]);
    var t := rest[..|rest| - 1];
    if t == "" {
      ReadNothing(b);
      ReadNothing(d);
    } else {
      assert t == [rest[0]] + t[1..];
      ReadFirst(b, rest[0], t[1..]);
      ReadFirst(d, rest[0], t[1..]);
    }
  }

  /** What may stand between the colon and the value: blanks, and line ends that a blank follows. */
  predicate IsGap(s: string)
    decreases |s|
  {
    if s == "" then true
    else if IsBlank(s[0]) then IsGap(s[1..])
    else if s[0] == LF then |s| > 1 && IsBlank(s[1]) && IsGap(s[2..])
    else s[0] == CR && |s| > 2 && s[1] == LF && IsBlank(s[2]) && IsGap(s[3..])
  }

  lemma {:induction false} ReadGap(c: Config, gap: string, rest: string) returns (d: Config)
    requires c.ps.state == Fields(DiscardWs) && c.pend == None && IsGap(gap) && !c.skip
    ensures Read(c, gap + rest) == Read(d, rest) && d.ps == c.ps && d.calls == c.calls && d.pend == None && !d.skip
    decreases |gap|
  {
    hide Read, PassOf;
    d := c;
    if gap == "" {
      assert gap + rest == rest;
    } else {
      var k := if IsBlank(gap[0]) then 1 else if gap[0] == LF then 2 else 3;
      if k == 1 {
        assert gap + rest == [gap[0]] + (gap[1..] + rest);
        BlankPass(c.ps, c.skip, gap[0]);
        d := ReadPass(c, gap[0], Stay(c.ps), gap[1..] + rest);
        assert c.calls + [] == c.calls;
      } else {
        var (end, blank) := (gap[..k - 1], gap[k - 1]);
        assert IsLineEnd(end);
        assert gap + rest == end + ([blank] + (gap[k..] + rest));
        d := ReadEmptyFold(c, end, blank, gap[k..] + rest);
      }
      d := ReadGap(d, gap[k..], rest);
    }
  }

  /** A line end before the value, and the blank that goes on after it. */
  lemma ReadEmptyFold(c: Config, end: string, blank: char, rest: string) returns (d: Config)
    requires c.ps.state == Fields(DiscardWs) && c.pend == None && IsLineEnd(end) && IsBlank(blank)
    ensures Read(c, end + ([blank] + rest)) == Read(d, rest) && d.ps == c.ps && d.calls == c.calls && d.pend == None && !d.skip
  {
    hide Read, PassOf, IsLineEnd;
    var d1 := ReadEmptyEnd(c, end, [blank] + rest);
    FoldPass(d1.ps, d1.skip, blank);
    d := ReadPass(d1, blank, To(d1.ps, Fields(DiscardWs)), rest);
    assert d1.calls + [] == d1.calls;
  }

  lemma FoldPass(ps: Parser, skip: bool, ch: char)
    requires IsBlank(ch)
    ensures ps.state == Fields(DiscardLws) ==> PassOf(ps, skip, ch) == To(ps, Fields(DiscardWs))
    ensures ps.state == Fields(ValueLws) ==> PassOf(ps, skip, ch) == Pass(ps.(state := Fields(ValueStart)), Nothing, false, Again)
  {
    hide StartPass, StatusLinePass, TargetPass, VersionPass, EndingPass, ChunkPass, ContentPass, FirstValueChar, Finish;
  }

  /** The end of a line without a value. */
  lemma ReadEmptyEnd(c: Config, end: string, rest: string) returns (d: Config)
    requires c.ps.state == Fields(DiscardWs) && c.pend == None && IsLineEnd(end)
    ensures Read(c, end + rest) == Read(d, rest)
    ensures d.ps == c.ps.(state := Fields(DiscardLws)) && d.calls == c.calls && d.pend == None && !d.skip
  {
    hide Read, PassOf;
    assert c.calls + [] == c.calls;
    if end == [LF] {
      BlankPass(c.ps, c.skip, LF);
      d := ReadPass(c, LF, To(c.ps, Fields(DiscardLws)), rest);
    } else {
      assert end + rest == [CR] + ([LF] + rest);
      BlankPass(c.ps, c.skip, CR);
      var c1 := ReadPass(c, CR, To(c.ps, Fields(DiscardWsAlmostDone)), [LF] + rest);
      LinePass(c1.ps, c1.skip);
      d := ReadPass(c1, LF, To(c1.ps, Fields(DiscardLws)), rest);
    }
  }

  // Further lines

  function FoldsText(fs: seq<Fold>): string {
    if fs == [] then "" else fs[0].end + (fs[0].text + FoldsText(fs[1..]))
  }

  /** Every further line is delivered as a value of its own, with its blank. */
  function FoldCalls(fs: seq<Fold>): seq<Event> {
    if fs == [] then [] else [Data(Kind.Value, fs[0].text)] + FoldCalls(fs[1..])
  }

  /** The values of a header are delivered up to the last of them, which is still being collected. */
  ghost predicate Delivers(c: Config, u: string, fs: seq<Fold>, d: Config, last: string) {
    Collects(d, last) && d.calls + [Data(Kind.Value, last)] == c.calls + [Data(Kind.Value, u)] + FoldCalls(fs)
  }

  /** The first blank of a further line: nothing is finished, and only at the start of an element the parser goes on. */
  lemma ReadFoldStart(c: Config, u: string, f: Fold, rest: string) returns (d: Config)
    requires Collects(c, u) && IsLineEnd(f.end) && f.text != "" && IsBlank(f.text[0])
    requires c.ps.hstate !in {HeaderState.ContentLength, HeaderState.TransferEncoding, HeaderState.Connection, HeaderState.Upgrade}
    ensures Read(c, f.end + (f.text + rest)) == Read(d, f.text[1..] + rest)
    ensures Collects(d, [f.text[0]]) && d.calls == c.calls + [Data(Kind.Value, u)]
    ensures d.ps == c.ps.(index := 0, hstate := if c.ps.hstate.MatchingConnectionTokenStart? then c.ps.hstate else General)
  {
    hide Read, PassOf, IsLineEnd, Lower;
    var ch := f.text[0];
    assert f.text + rest == [ch] + (f.text[1..] + rest);
    var d1 := ReadEitherEnd(c, u, f.end, f.text + rest);
    FoldPass(d1.ps, d1.skip, ch);
    var d2 := After(Count(d1), ch);
    FirstValuePass(d2.ps, d2.skip, ch);
    d := ReadTwoPasses(d1, ch, f.text[1..] + rest);
    assert d1.calls + [] == d1.calls && "" + [ch] == [ch];
  }

  /** Once the parser has given up on a value, its further lines change nothing. */
  lemma {:induction false} ReadFolds(c: Config, u: string, fs: seq<Fold>) returns (d: Config, last: string)
    requires Collects(c, u) && GoodFolds(c.ps.lenient, fs)
    requires c.ps.hstate !in {HeaderState.ContentLength, HeaderState.TransferEncoding, HeaderState.Connection, HeaderState.Upgrade}
    requires fs != [] ==> !c.ps.hstate.MatchingConnectionTokenStart?
    ensures Read(c, FoldsText(fs)) == Some(d) && Delivers(c, u, fs, d, last)
    ensures d.ps == if fs == [] then c.ps else c.ps.(index := 0, hstate := General)
    decreases |fs|
  {
    hide Read, IsLineEnd, NoEol, Legal;
    if fs == [] {
      ReadNothing(c);
      assert c.calls + [Data(Kind.Value, u)] + [] == c.calls + [Data(Kind.Value, u)];
      d, last := c, u;
    } else {
      var (f, more) := (fs[0], FoldsText(fs[1..]));
      assert f in fs && forall g | g in fs[1..] :: g in fs;
      var d1 := ReadFoldStart(c, u, f, more);
      d1 := ReadFoldRest(d1, f, more);
      d, last := ReadFolds(d1, f.text, fs[1..]);
      CallsJoin(c.calls, u, fs);
    }
  }

  lemma CallsJoin(calls: seq<Event>, u: string, fs: seq<Fold>)
    requires fs != []
    ensures (calls + [Data(Kind.Value, u)]) + [Data(Kind.Value, fs[0].text)] + FoldCalls(fs[1..]) == calls + [Data(Kind.Value, u)] + FoldCalls(fs)
  {
  }

  lemma TextTail(f: Fold, lenient: bool)
    requires GoodFold(lenient, f)
    ensures NoEol(f.text[1..]) && Legal(lenient, f.text[1..]) && [f.text[0]] + f.text[1..] == f.text
  {
  }

  lemma ReadFoldRest(c: Config, f: Fold, more: string) returns (d: Config)
    requires GoodFold(c.ps.lenient, f) && Collects(c, [f.text[0]]) && c.ps.hstate.General?
    ensures Read(c, f.text[1..] + more) == Read(d, more) && Collects(d, f.text) && d.calls == c.calls && d.ps == c.ps
  {
    hide Read, NoEol, Legal;
    TextTail(f, c.ps.lenient);
    ReadGeneralRest(c, [f.text[0]], f.text[1..]);
    d := Read(c, f.text[1..]).value;
    ReadJoin(c, f.text[1..], more);
  }

  /** A Connection list of which v has been read. */
  lemma OpenList(ps: Parser, f0: Flags, v: string)
    requires ListKnown(ps, f0, v) && v != ""
    ensures ps.hstate.MatchingConnectionTokenStart? <==> AtElement(v)
    ensures ps.hstate !in {HeaderState.ContentLength, HeaderState.TransferEncoding, HeaderState.Connection, HeaderState.Upgrade}
    ensures FlagsAre(f0, ps.flags, LookedAt(Earlier(v)))
  {
    hide Elements, LookedAt, ModeAfter, FlagsAre, Trim, Comparing, IsWord;
    var (m, e) := (ModeAfter(Earlier(v)), Current(v));
    BelievedStates(ps.hstate, ps.index, Trim(e));
    ClassRange(Trim(e));
    if m.First? { ClassRange(e); }
    EmptyClass();
  }

  /** A header in several lines whose first line is one element gives it up. */
  lemma FoldedAlone(h: Header)
    requires h.folds != [] && ',' !in h.value
    ensures !SaysKeepAlive(h) && !SaysClose(h) && !SaysConnectionUpgrade(h) && !SaysChunked(h)
  {
    OneElement(h.value);
    assert Earlier(h.value) == [];
    hide IsNamed, IsWord, Elements, Trim;
  }

  /** A list of ordinary elements with a comma at the end of its line goes on in the next line as if there were one. */
  lemma FoldedList(u: string, f: Fold)
    requires f.text != "" && forall e | e in Elements(u) :: Ordinary(e)
    ensures LookedIn(u + ",", [f]) == LookedAt(Elements(u + "," + ([SP] + f.text[1..])))
  {
    hide Elements, LookedAt, Ordinary;
    CurrentSnoc(u, ',');
    var es := Elements(u) + [""];
    forall i | 0 <= i < |es| - 1 ensures Ordinary(es[i]) { assert es[i] in Elements(u); }
    OrdinaryList(es);
    assert es[..|es| - 1] == Elements(u) == Earlier(u) + [Current(u)] == Earlier(u + ",");
    assert Trim("") == "";
    assert [f][0] == f && [f][1..] == [];
  }

  /** A list goes on with a space at the start of an element. */
  lemma SpaceGoesOn(ps: Parser, f0: Flags, v: string)
    requires ListKnown(ps, f0, v) && ps.hstate.MatchingConnectionTokenStart?
    ensures ListKnown(ps.(index := 0), f0, v + [SP])
  {
    hide Elements, LookedAt, ModeAfter, FlagsAre, Trim;
    CurrentSnoc(v, SP);
    hide Current, Earlier;
    var (m, e) := (ModeAfter(Earlier(v)), Current(v));
    TrimSnoc(e, SP);
    ClassRange(Trim(e));
    if m.First? { ClassRange(e); }
    EmptyClass();
  }

  /** The further lines of a Connection list. */
  lemma {:induction false} ReadListFolds(c: Config, f0: Flags, v: string, u: string, fs: seq<Fold>) returns (d: Config, last: string)
    requires Collects(c, u) && ListKnown(c.ps, f0, v) && v != "" && GoodFolds(c.ps.lenient, fs)
    ensures Read(c, FoldsText(fs)) == Some(d) && Delivers(c, u, fs, d, last)
    ensures d.ps == c.ps.(index := d.ps.index, hstate := d.ps.hstate, flags := d.ps.flags)
    ensures FlagsAre(f0, FinishFlags(d.ps.hstate, d.ps.flags), LookedIn(v, fs))
    decreases |fs|
  {
    hide Read, IsLineEnd, NoEol, Legal, ListKnown, FlagsAre, AtElement;
    OpenList(c.ps, f0, v);
    if fs == [] {
      d, last := ReadFolds(c, u, fs);
      FinishList(c.ps, f0, v);
    } else if !AtElement(v) {
      assert fs[0] in fs;
      d, last := ReadFolds(c, u, fs);
      GeneralStays(SP, 0, d.ps.flags);
    } else {
      var (f, more) := (fs[0], FoldsText(fs[1..]));
      assert f in fs && forall g | g in fs[1..] :: g in fs;
      var d1 := ReadFoldStart(c, u, f, more);
      SpaceGoesOn(c.ps, f0, v);
      TextTail(f, c.ps.lenient);
      ReadListRest(d1, f0, v + [SP], [f.text[0]], f.text[1..]);
      var d2 := Read(d1, f.text[1..]).value;
      ReadJoin(d1, f.text[1..], more);
      assert v + [SP] + f.text[1..] == v + ([SP] + f.text[1..]);
      d, last := ReadListFolds(d2, f0, v + ([SP] + f.text[1..]), f.text, fs[1..]);
      CallsJoin(c.calls, u, fs);
    }
  }

  /** A whole value, with its further lines. */
  lemma ReadWhole(c: Config, h: Header) returns (d: Config, last: string)
    requires c.ps.state == Fields(DiscardWs) && c.pend == None && c.ps.hstate == NameClass(LowerCase(h.name))
    requires h.value != "" && GoodHeader(c.ps.lenient, c.ps.flags.contentLength, h)
    ensures Read(c, h.value + FoldsText(h.folds)) == Some(d) && Delivers(c, h.value, h.folds, d, last)
    ensures d.ps == c.ps.(state := Fields(InValue), index := d.ps.index, hstate := d.ps.hstate, flags := d.ps.flags, length := d.ps.length)
    ensures HeaderEffect(c.ps.flags, c.ps.length, h, FinishFlags(d.ps.hstate, d.ps.flags), d.ps.length)
  {
    hide Read, HeaderEffect, Delivers, GoodHeader, FinishFlags, NameClass, LowerCase;
    var s := c.ps.hstate;
    if s.Connection? {
      d, last := ReadConnection(c, h);
    } else {
      var one := h.(folds := []);
      OneLine(c.ps.lenient, c.ps.flags.contentLength, h);
      var d1 := ReadValue(c, one);
      d, last := ReadFolds(d1, h.value, h.folds);
      DeliversFrom(c, d1, h.value, h.folds, d, last);
      ReadJoin(c, h.value, FoldsText(h.folds));
      FoldedEffect(c.ps.flags, c.ps.length, h, d1.ps, d.ps);
    }
  }

  lemma DeliversFrom(c: Config, c1: Config, u: string, fs: seq<Fold>, d: Config, last: string)
    requires c.calls == c1.calls && Delivers(c1, u, fs, d, last)
    ensures Delivers(c, u, fs, d, last)
  {
  }

  lemma OneLine(lenient: bool, known: bool, h: Header)
    requires GoodHeader(lenient, known, h)
    ensures GoodHeader(lenient, known, h.(folds := [])) && GoodFolds(lenient, h.folds)
  {
    hide GoodFold, AllTokens, Legal, NoEol, IsLength, LowerCase;
  }

  /** Further lines keep what the first line has set, and nothing but that: so a coding is not taken note of. */
  lemma FoldedEffect(f: Flags, n: nat, h: Header, ps: Parser, ps': Parser)
    requires !NameClass(LowerCase(h.name)).Connection? && Unfinished(NameClass(LowerCase(h.name)), f, ps)
    requires HeaderEffect(f, n, h.(folds := []), FinishFlags(ps.hstate, ps.flags), ps.length)
    requires ps' == if h.folds == [] then ps else ps.(index := 0, hstate := General)
    ensures HeaderEffect(f, n, h, FinishFlags(ps'.hstate, ps'.flags), ps'.length)
  {
    hide NameClass, LowerCase, IsWord, IsNumber, LookedIn;
  }

  lemma ReadConnection(c: Config, h: Header) returns (d: Config, last: string)
    requires c.ps.state == Fields(DiscardWs) && c.pend == None && c.ps.hstate == NameClass(LowerCase(h.name)) == HeaderState.Connection
    requires h.value != "" && GoodHeader(c.ps.lenient, c.ps.flags.contentLength, h)
    ensures Read(c, h.value + FoldsText(h.folds)) == Some(d) && Delivers(c, h.value, h.folds, d, last)
    ensures d.ps == c.ps.(state := Fields(InValue), index := d.ps.index, hstate := d.ps.hstate, flags := d.ps.flags, length := d.ps.length)
    ensures HeaderEffect(c.ps.flags, c.ps.length, h, FinishFlags(d.ps.hstate, d.ps.flags), d.ps.length)
  {
    hide Read, NameClass, LowerCase, FlagsAre, LookedIn, LookedAt, Elements, GoodFold, Delivers, ListKnown, FinishFlags, AllTokens, IsLength;
    ConnectionExact(c, h.value);
    var d1 := Read(c, h.value).value;
    d, last := ReadListFolds(d1, c.ps.flags, h.value, h.value, h.folds);
    DeliversFrom(c, d1, h.value, h.folds, d, last);
    ReadJoin(c, h.value, FoldsText(h.folds));
  }

  /** A header line: name, colon, blanks, value with further lines, and line end. */
  datatype Line = Line(header: Header, blanks: string, end: string)

  predicate GoodEnds(l: Line) {
    IsGap(l.blanks) && IsLineEnd(l.end)
  }

  function LineText(l: Line): string {
    l.header.name + ":" + (l.blanks + (l.header.value + (FoldsText(l.header.folds) + l.end)))
  }

  /** A header is delivered as its name and, line by line, its value, and changes the record as it says. */
  lemma ReadHeader(c: Config, l: Line) returns (b: Config, d: Config)
    requires c.ps.state == Fields(FieldStart) && c.pend == None && GoodHeader(c.ps.lenient, c.ps.flags.contentLength, l.header)
    requires GoodEnds(l)
    ensures Read(c, LineText(l)) == Some(b) && Ready(b, d)
    ensures HeadersEffect(c.ps, [l.header], d.ps)
    ensures d.calls == c.calls + OneHeaderCalls(l.header)
  {
    hide Read, PassOf, NameClass, LowerCase, Finish, IsNumber, FlagsOf, LengthOf, HeaderEffect, IsLength, IsGap, IsLineEnd, AllTokens, Legal,
         Ready, FoldsText, FoldCalls, GoodFold;
    var h := l.header;
    NameIsToken(h.name);
    NameExact(c, h.name);
    var c1 := Read(c, h.name + ":").value;
    var tail := h.value + (FoldsText(h.folds) + l.end);
    assert LineText(l) == (h.name + ":") + (l.blanks + tail);
    ReadJoin(c, h.name + ":", l.blanks + tail);
    var c2 := ReadGap(c1, l.blanks, tail);
    b, d := ReadHeaderEnd(c2, h, l.end);
    ReadyState(b, d);
    EffectOfOne(c.ps.flags, c.ps.length, h, d.ps.flags, d.ps.length);
    NameThenValues(c.calls, h);
  }

  lemma NameThenValues(calls: seq<Event>, h: Header)
    ensures calls + [Data(Kind.Field, h.name)] + [Data(Kind.Value, h.value)] + FoldCalls(h.folds) == calls + OneHeaderCalls(h)
  {
    hide FoldCalls;
  }

  lemma ReadyState(b: Config, d: Config)
    requires Ready(b, d)
    ensures d.ps.state == Fields(FieldStart) && d.pend == None && !d.skip && !b.skip
  {
  }

  lemma NameIsToken(name: string)
    requires name != "" && AllTokens(name)
    ensures !IsEol(name[0]) && ':' !in name[1..]
  {
    forall i: nat | i < |name[1..]| ensures name[1..][i] != ':' {
      assert IsToken(name[i + 1]);
    }
  }

  lemma ReadHeaderEnd(c: Config, h: Header, end: string) returns (b: Config, d: Config)
    requires c.ps.state == Fields(DiscardWs) && c.pend == None && !c.skip && c.ps.hstate == NameClass(LowerCase(h.name))
    requires GoodHeader(c.ps.lenient, c.ps.flags.contentLength, h) && IsLineEnd(end)
    ensures Read(c, h.value + (FoldsText(h.folds) + end)) == Some(b) && Ready(b, d)
    ensures d.ps == c.ps.(state := Fields(FieldStart), index := d.ps.index, hstate := d.ps.hstate, flags := d.ps.flags, length := d.ps.length)
    ensures HeaderEffect(c.ps.flags, c.ps.length, h, d.ps.flags, d.ps.length)
    ensures d.calls == c.calls + [Data(Kind.Value, h.value)] + FoldCalls(h.folds)
  {
    hide Read, PassOf, NameClass, LowerCase, HeaderEffect, GoodHeader, FinishFlags, IsLineEnd, FoldsText;
    var all := h.value + FoldsText(h.folds);
    assert h.value + (FoldsText(h.folds) + end) == all + (end + "");
    if h.value == "" {
      NoFolds(c.ps.lenient, c.ps.flags.contentLength, h);
      assert all + (end + "") == end + "";
      b := ReadEmptyEnd(c, end, "");
      NameClasses(LowerCase(h.name));
      EmptyValue(c.ps.lenient, c.ps.flags, c.ps.length, h);
      assert c.calls + [Data(Kind.Value, h.value)] + [] == c.calls + [Data(Kind.Value, h.value)];
    } else {
      var c1, last := ReadWhole(c, h);
      ReadJoin(c, all, end + "");
      b := ReadEitherEnd(c1, last, end, "");
    }
    ReadNothing(b);
    d := NextHeader(b);
  }

  lemma NoFolds(lenient: bool, known: bool, h: Header)
    requires GoodHeader(lenient, known, h) && h.value == ""
    ensures h.folds == [] && FoldsText(h.folds) == ""
  {
    hide AllTokens, IsLength, LowerCase, GoodFold;
  }

  /** The end of a line with a value. */
  lemma ReadEitherEnd(c: Config, u: string, end: string, rest: string) returns (d: Config)
    requires Collects(c, u) && IsLineEnd(end)
    ensures Read(c, end + rest) == Read(d, rest)
    ensures d.ps == c.ps.(state := Fields(ValueLws)) && d.calls == c.calls + [Data(Kind.Value, u)] && d.pend == None && !d.skip
  {
    hide Read, PassOf;
    if end == [CR, LF] {
      d := ReadLineEnd(c, u, rest);
    } else {
      InValuePass(c.ps, c.skip, LF);
      var c1 := After(Count(c), LF);
      AlmostDonePass(c1.ps, c1.skip);
      d := ReadTwoPasses(c, LF, rest);
      assert c.calls + [Data(Kind.Value, u)] + [] == c.calls + [Data(Kind.Value, u)];
    }
  }

  lemma EmptyValue(lenient: bool, f: Flags, n: nat, h: Header)
    requires GoodHeader(lenient, f.contentLength, h) && h.value == ""
    ensures HeaderEffect(f, n, h, f, n)
  {
    forall k: nat ensures !IsLength("", k) {}
    NameMeaning(LowerCase(h.name));
    NothingSeen();
    hide NameClass, LowerCase, Elements, LookedAt, Has;
  }

  lemma NothingSeen()
    ensures !IsWord("", CHUNKED)
    ensures forall word | word in TOKENS :: !Has(LookedAt(Elements("")), word)
  {
    NoElements();
    NothingLookedAt();
    LookedAtSnoc([], "");
    assert [] + [""] == [""];
    EmptyElement();
    EmptyClass();
    hide Elements, LookedAt, IsWord, Trim;
  }

  /** A list of header lines, as they come. */
  function LinesText(ls: seq<Line>): string {
    if ls == [] then "" else LineText(ls[0]) + LinesText(ls[1..])
  }

  function HeadersOf(ls: seq<Line>): seq<Header> {
    if ls == [] then [] else [ls[0].header] + HeadersOf(ls[1..])
  }

  ghost predicate GoodLines(lenient: bool, known: bool, ls: seq<Line>) {
    GoodHeaders(lenient, known, HeadersOf(ls)) && forall l | l in ls :: GoodEnds(l)
  }

  /** A header line as it is printed: one blank, and CR LF. */
  function HeaderText(name: string, value: string): string {
    name + ":" + [SP] + value + [CR, LF]
  }

  function HeadersText(hs: seq<Header>): string {
    if hs == [] then "" else HeaderText(hs[0].name, hs[0].value) + HeadersText(hs[1..])
  }

  function PrintedLines(hs: seq<Header>): seq<Line> {
    if hs == [] then [] else [Line(hs[0], [SP], [CR, LF])] + PrintedLines(hs[1..])
  }

  lemma PrintedLine(h: Header)
    requires h.folds == []
    ensures LineText(Line(h, [SP], [CR, LF])) == HeaderText(h.name, h.value) && GoodEnds(Line(h, [SP], [CR, LF]))
  {
    assert FoldsText(h.folds) + [CR, LF] == [CR, LF];
    assert IsGap([SP]) by { assert [SP][1..] == ""; }
  }

  lemma {:induction false} PrintedText(hs: seq<Header>)
    requires forall h | h in hs :: h.folds == []
    ensures LinesText(PrintedLines(hs)) == HeadersText(hs) && HeadersOf(PrintedLines(hs)) == hs
    ensures forall l | l in PrintedLines(hs) :: GoodEnds(l)
    decreases |hs|
  {
    hide LineText, HeaderText, GoodEnds;
    if hs != [] {
      assert hs[0] in hs && forall h | h in hs[1..] :: h in hs;
      PrintedText(hs[1..]);
      PrintedLine(hs[0]);
      assert PrintedLines(hs)[0] == Line(hs[0], [SP], [CR, LF]) && PrintedLines(hs)[1..] == PrintedLines(hs[1..]);
    }
  }

  function OneHeaderCalls(h: Header): seq<Event> {
    [Data(Kind.Field, h.name), Data(Kind.Value, h.value)] + FoldCalls(h.folds)
  }

  function HeaderCalls(hs: seq<Header>): seq<Event> {
    if hs == [] then [] else OneHeaderCalls(hs[0]) + HeaderCalls(hs[1..])
  }

  ghost predicate GoodHeaders(lenient: bool, known: bool, hs: seq<Header>)
    decreases |hs|
  {
    hs != [] ==> GoodHeader(lenient, known, hs[0]) && GoodHeaders(lenient, known || IsNamed(hs[0], CONTENT_LENGTH), hs[1..])
  }

  predicate Mentions(hs: seq<Header>, word: string) {
    exists h | h in hs :: IsNamed(h, word)
  }

  lemma MentionsFirst(hs: seq<Header>, word: string)
    requires hs != []
    ensures Mentions(hs, word) <==> IsNamed(hs[0], word) || Mentions(hs[1..], word)
  {
    hide IsNamed;
    assert hs == [hs[0]] + hs[1..];
    if Mentions(hs[1..], word) {
      var h :| h in hs[1..] && IsNamed(h, word);
      assert h in hs;
    }
    if IsNamed(hs[0], word) {
      assert hs[0] in hs;
    }
  }

  /** A second length is refused. */
  lemma {:induction false} NoLength(lenient: bool, hs: seq<Header>)
    requires GoodHeaders(lenient, true, hs)
    ensures !Mentions(hs, CONTENT_LENGTH)
    decreases |hs|
  {
    hide IsNamed, AllTokens, Legal, IsLength;
    if hs != [] {
      MentionsFirst(hs, CONTENT_LENGTH);
      NoLength(lenient, hs[1..]);
    }
  }

  lemma LengthOnce(lenient: bool, known: bool, h: Header, hs: seq<Header>)
    requires GoodHeaders(lenient, known, [h] + hs)
    ensures IsNamed(h, CONTENT_LENGTH) ==> !Mentions(hs, CONTENT_LENGTH)
  {
    hide IsNamed, AllTokens, Legal, IsLength;
    assert ([h] + hs)[0] == h && ([h] + hs)[1..] == hs;
    if IsNamed(h, CONTENT_LENGTH) { NoLength(lenient, hs); }
  }

  lemma AnyFirst(hs: seq<Header>, says: Header -> bool)
    requires hs != []
    ensures Any(hs, says) <==> Any([hs[0]], says) || Any(hs[1..], says)
  {
    assert hs == [hs[0]] + hs[1..];
    AnyOne(hs[0], says);
    if Any(hs[1..], says) {
      var h :| h in hs[1..] && says(h);
      assert h in hs;
    }
    if says(hs[0]) {
      assert hs[0] in hs;
    }
  }

  lemma FlagsCompose(f: Flags, hs: seq<Header>)
    requires hs != []
    ensures FlagsOf(FlagsOf(f, [hs[0]]), hs[1..]) == FlagsOf(f, hs)
  {
    hide Any;
    AnyFirst(hs, SaysChunked);
    AnyFirst(hs, SaysUpgrade);
    AnyFirst(hs, SaysLength);
    AnyFirst(hs, SaysKeepAlive);
    AnyFirst(hs, SaysClose);
    AnyFirst(hs, SaysConnectionUpgrade);
  }

  /** A length is said by a Content-Length. */
  lemma SaidLength(hs: seq<Header>)
    ensures Any(hs, SaysLength) <==> Mentions(hs, CONTENT_LENGTH)
  {
    hide IsNamed;
    if Any(hs, SaysLength) { var h :| h in hs && SaysLength(h); assert IsNamed(h, CONTENT_LENGTH); }
    if Mentions(hs, CONTENT_LENGTH) { var h :| h in hs && IsNamed(h, CONTENT_LENGTH); assert SaysLength(h); }
  }

  lemma LengthsCompose(n: nat, hs: seq<Header>, n1: nat, n2: nat)
    requires hs != [] && LengthOf(n, [hs[0]], n1) && LengthOf(n1, hs[1..], n2)
    requires SaysLength(hs[0]) ==> !Mentions(hs[1..], CONTENT_LENGTH)
    ensures LengthOf(n, hs, n2)
  {
    AnyFirst(hs, SaysLength);
    AnyOne(hs[0], SaysLength);
    SaidLength(hs[1..]);
    hide IsNumber, IsNamed, Any, Mentions, SaysLength;
    assert hs[0] in hs && forall h | h in hs[1..] :: h in hs;
  }

  lemma EffectsCompose(ps: Parser, hs: seq<Header>, ps1: Parser, ps2: Parser)
    requires hs != [] && HeadersEffect(ps, [hs[0]], ps1) && HeadersEffect(ps1, hs[1..], ps2)
    requires GoodHeaders(ps.lenient, ps.flags.contentLength, hs)
    ensures HeadersEffect(ps, hs, ps2)
  {
    hide FlagsOf, LengthOf, GoodHeaders, IsNamed;
    FlagsCompose(ps.flags, hs);
    assert [hs[0]] + hs[1..] == hs;
    LengthOnce(ps.lenient, ps.flags.contentLength, hs[0], hs[1..]);
    LengthsCompose(ps.length, hs, ps1.length, ps2.length);
  }

  lemma NoEffect(ps: Parser)
    requires ps.state == Fields(FieldStart)
    ensures HeadersEffect(ps, [], ps)
  {
  }

  lemma FirstLine(ls: seq<Line>)
    requires ls != []
    ensures HeadersOf(ls) != [] && HeadersOf(ls)[0] == ls[0].header && HeadersOf(ls)[1..] == HeadersOf(ls[1..])
    ensures LinesText(ls) == LineText(ls[0]) + LinesText(ls[1..])
  {
    hide LineText;
  }

  lemma KnownAfter(ps: Parser, hs: seq<Header>, ps': Parser)
    requires hs != [] && HeadersEffect(ps, [hs[0]], ps') && GoodHeaders(ps.lenient, ps.flags.contentLength, hs)
    ensures ps'.state == Fields(FieldStart) && GoodHeaders(ps'.lenient, ps'.flags.contentLength, hs[1..])
  {
    AnyOne(hs[0], SaysLength);
    hide Any, GoodHeader, LengthOf, IsNamed;
  }

  /** A list of headers is delivered name by name and value by value, and changes the record exactly as it says. */
  lemma {:induction false} ReadHeaders(c: Config, ls: seq<Line>) returns (b: Config, d: Config)
    requires c.ps.state == Fields(FieldStart) && c.pend == None && !c.skip
    requires GoodLines(c.ps.lenient, c.ps.flags.contentLength, ls)
    ensures Read(c, LinesText(ls)) == Some(b) && Ready(b, d)
    ensures HeadersEffect(c.ps, HeadersOf(ls), d.ps)
    ensures d.calls == c.calls + HeaderCalls(HeadersOf(ls))
    decreases |ls|
  {
    hide Read, GoodHeaders, HeadersEffect, LineText, GoodEnds, NextHeader, GoodHeader;
    if ls == [] {
      ReadNothing(c);
      assert c.calls + [] == c.calls;
      NoEffect(c.ps);
      b, d := c, c;
    } else {
      FirstLine(ls);
      FirstIsGood(c.ps.lenient, c.ps.flags.contentLength, ls);
      hide LinesText, HeadersOf;
      var hs := HeadersOf(ls);
      assert [hs[0]] == [ls[0].header];
      var b1, d1 := ReadHeader(c, ls[0]);
      KnownAfter(c.ps, hs, d1.ps);
      b, d := ReadHeaders(d1, ls[1..]);
      ReadJoin(c, LineText(ls[0]), LinesText(ls[1..]));
      if ls[1..] == [] {
        b := ReadNoLines(b1, d1, ls[1..], b, d);
      } else {
        LinesStart(d1.ps.lenient, d1.ps.flags.contentLength, ls[1..]);
        ReadyReads(b1, d1, LinesText(ls[1..]));
      }
      EffectsCompose(c.ps, hs, d1.ps, d.ps);
      assert d1.calls + HeaderCalls(hs[1..]) == c.calls + HeaderCalls(hs);
    }
  }

  lemma ReadNoLines(b1: Config, d1: Config, ls: seq<Line>, b2: Config, d: Config) returns (b: Config)
    requires ls == [] && Ready(b1, d1) && Read(d1, LinesText(ls)) == Some(b2) && Ready(b2, d)
    ensures Read(b1, LinesText(ls)) == Some(b) && Ready(b, d)
  {
    hide Read, NextHeader;
    ReadNothing(b1);
    ReadNothing(d1);
    b := b1;
  }

  lemma NumberUnique(v: string, n: nat, m: nat)
    requires IsNumber(v, n) && IsNumber(v, m)
    ensures n == m
  {
    var j: nat :| IsLength(v, j) && DecValue(v[..j]) == n;
    var k: nat :| IsLength(v, k) && DecValue(v[..k]) == m;
    SpelledBytes(v, j);
    SpelledBytes(v, k);
    SpaceIsNoDigit();
    assert j == k;
  }

  lemma SpaceIsNoDigit()
    ensures !IsNum(SP)
  {
  }

  /** There is only one length, and it denotes one number. */
  lemma {:induction false} OneLength(lenient: bool, known: bool, hs: seq<Header>, h: Header, k: Header)
    requires GoodHeaders(lenient, known, hs) && h in hs && k in hs && SaysLength(h) && SaysLength(k)
    ensures h == k
    decreases |hs|
  {
    hide GoodHeader, IsNamed;
    assert hs == [hs[0]] + hs[1..];
    if SaysLength(hs[0]) {
      NoLength(lenient, hs[1..]);
    } else {
      OneLength(lenient, known, hs[1..], h, k);
    }
  }

  lemma LengthUnique(lenient: bool, hs: seq<Header>, n: nat, m: nat)
    requires GoodHeaders(lenient, false, hs) && LengthOf(ULLONG_MAX, hs, n) && LengthOf(ULLONG_MAX, hs, m)
    ensures n == m
  {
    hide GoodHeaders, IsNumber, SaysLength;
    if Any(hs, SaysLength) {
      var h :| h in hs && SaysLength(h) && IsNumber(h.value, n);
      var k :| k in hs && SaysLength(k) && IsNumber(k.value, m);
      OneLength(lenient, false, hs, h, k);
      NumberUnique(h.value, n, m);
    }
  }

  lemma FirstIsGood(lenient: bool, known: bool, ls: seq<Line>)
    requires GoodLines(lenient, known, ls) && ls != []
    ensures GoodHeader(lenient, known, ls[0].header) && GoodEnds(ls[0])
  {
    FirstLine(ls);
    hide GoodHeader, GoodEnds;
  }

  lemma LinesStart(lenient: bool, known: bool, ls: seq<Line>)
    requires GoodLines(lenient, known, ls) && ls != []
    ensures LinesText(ls) != "" && LinesText(ls)[0] != SP && LinesText(ls)[0] != HT
  {
    FirstLine(ls);
    var name := ls[0].header.name;
    assert IsToken(name[0]);
    assert LinesText(ls)[0] == name[0];
  }
}
