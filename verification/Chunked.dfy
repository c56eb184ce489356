/** The chunked transfer coding (section 4.1 of RFC 7230): chunk sizes are exact or refused, and what was cut into
    chunks is delivered whole. */
module Chunked {
  import opened Characters
  import opened Alphabets
  import opened Http
  import opened Trace
  import opened Machine
  import opened Reading
  import opened Counting
  import opened HeaderLines
  import opened Split
  import opened Content
  import opened HeadReading

  predicate AllHex(s: string) {
    forall i | 0 <= i < |s| :: IsHex(s[i])
  }

  /** The number a string of hexadecimal digits denotes. */
  function HexValue(s: string): nat
    requires AllHex(s)
  {
    if s == "" then 0 else HexValue(s[..|s| - 1]) * 16 + HexDigit(s[|s| - 1])
  }

  const MAX_CHUNK: nat := TWO_TO_THE_64 - 17

  /** A chunk header line: k hexadecimal digits that denote at most MAX_CHUNK, and then nothing or an extension. */
  predicate IsChunkLine(w: string, k: nat) {
    0 < k <= |w| && AllHex(w[..k]) && (k < |w| ==> w[k] == ';' || w[k] == SP) && HexValue(w[..k]) <= MAX_CHUNK
  }

  lemma HexSnoc(s: string, ch: char)
    requires AllHex(s) && IsHex(ch)
    ensures AllHex(s + [ch]) && HexValue(s + [ch]) == HexValue(s) * 16 + HexDigit(ch)
  {
    assert (s + [ch])[..|s|] == s;
  }

  lemma {:induction false} HexGrows(s: string, k: nat)
    requires AllHex(s) && k <= |s|
    ensures HexValue(s[..k]) <= HexValue(s)
    decreases |s|
  {
    if k < |s| {
      HexGrows(s[..|s| - 1], k);
      assert s[..|s| - 1][..k] == s[..k];
    } else {
      assert s[..k] == s;
    }
  }

  lemma SizeBytes(w: string, k: nat)
    requires IsChunkLine(w, k)
    ensures forall i | 0 <= i < k :: IsHex(w[i])
  {
    assert forall i | 0 <= i < k :: w[i] == w[..k][i];
  }

  lemma ChunkPassOf(ps: Parser, skip: bool, ch: char)
    requires ps.state.Chunk?
    ensures PassOf(ps, skip, ch) == ChunkPass(ps, ps.state.chunk, ch)
  {
    hide StartPass, StatusLinePass, TargetPass, VersionPass, FieldsPass, EndingPass, ContentPass, ChunkPass;
  }

  lemma ChunkFacts(ps: Parser, ch: char)
    requires ps.state.Chunk?
    ensures
      var r := ChunkPass(ps, ps.state.chunk, ch);
      match ps.state.chunk
      case ChunkSizeStart =>
        r == if IsHex(ch) then To(ps.(length := HexDigit(ch)), State.Chunk(ChunkSize)) else Error(ps, INVALID_CHUNK_SIZE)
      case ChunkSize =>
        if ch == CR then r == To(ps, State.Chunk(ChunkSizeAlmostDone))
        else if IsHex(ch) then
          if ps.length * 16 + HexDigit(ch) > MAX_CHUNK then r.control.Fail?
          else r == Stay(ps.(length := ps.length * 16 + HexDigit(ch)))
        else if ch == ';' || ch == SP then r == To(ps, State.Chunk(ChunkParameters))
        else r.control.Fail?
      case ChunkParameters => r == if ch == CR then To(ps, State.Chunk(ChunkSizeAlmostDone)) else Stay(ps)
      case _ => true
  {
  }

  /** A parser in the size line of a chunk. */
  predicate InSizeLine(c: Config, s: ChunkState) {
    c.ps.state == State.Chunk(s) && c.pend == None
  }

  /** The configuration after a chunk header line that announces n bytes. */
  predicate SizeRead(c: Config, n: nat, d: Config) {
    && d.pend == None && !d.skip && d.calls == c.calls + [ChunkHeader(n)]
    && d.ps == if n == 0 then c.ps.(length := 0, flags := c.ps.flags.(trailing := true), state := Fields(FieldStart))
               else c.ps.(length := n, state := State.Chunk(ChunkData))
  }

  /** After k more counted bytes the count starts again. */
  predicate LineCounted(c: Config, k: nat, d: Config) {
    d.n == 0 && d.peak == Higher(c.peak, c.n + k)
  }

  lemma ReadLineLf(c: Config, rest: string) returns (d: Config)
    requires InSizeLine(c, ChunkSize) || InSizeLine(c, ChunkParameters)
    ensures Read(c, [CR, LF] + rest) == Read(d, rest) && SizeRead(c, c.ps.length, d) && LineCounted(c, 2, d)
  {
    hide PassOf, Read;
    assert [CR, LF] + rest == [CR] + ([LF] + rest);
    ChunkPassOf(c.ps, c.skip, CR);
    var c1 := ReadPass(c, CR, ChunkPass(c.ps, c.ps.state.chunk, CR), [LF] + rest);
    assert c.calls + [] == c.calls;
    ChunkPassOf(c1.ps, c1.skip, LF);
    d := ReadPass(c1, LF, ChunkPass(c1.ps, c1.ps.state.chunk, LF), rest);
  }

  /** An extension is passed over. */
  lemma {:induction false} ReadExtension(c: Config, ext: string, rest: string) returns (d: Config)
    requires InSizeLine(c, ChunkParameters) && CR !in ext
    ensures Read(c, ext + ([CR, LF] + rest)) == Read(d, rest) && SizeRead(c, c.ps.length, d) && LineCounted(c, |ext| + 2, d)
    decreases |ext|
  {
    hide PassOf, Read, ChunkPass;
    if ext == "" {
      assert ext + ([CR, LF] + rest) == [CR, LF] + rest;
      d := ReadLineLf(c, rest);
    } else {
      var ch := ext[0];
      assert ext + ([CR, LF] + rest) == [ch] + (ext[1..] + ([CR, LF] + rest));
      ChunkPassOf(c.ps, c.skip, ch);
      ChunkFacts(c.ps, ch);
      assert ch in ext;
      var c1 := ReadPass(c, ch, Stay(c.ps), ext[1..] + ([CR, LF] + rest));
      assert c.calls + [] == c.calls;
      d := ReadExtension(c1, ext[1..], rest);
    }
  }

  /** A size ends with its line, or before an extension. */
  lemma SizeEnds(u: string, w: string)
    requires u != "" && AllHex(u) && HexValue(u) <= MAX_CHUNK && (w == "" || w[0] == ';' || w[0] == SP)
    ensures IsChunkLine(u + w, |u|) && (u + w)[..|u|] == u
  {
    assert (u + w)[..|u|] == u;
  }

  /** The size line of which the digits u have been read. */
  lemma {:induction false} ReadSizeRest(c: Config, u: string, w: string, rest: string) returns (d: Config)
    requires InSizeLine(c, ChunkSize) && CR !in w && u != "" && AllHex(u) && c.ps.length == HexValue(u) <= MAX_CHUNK
    ensures (exists k: nat :: IsChunkLine(u + w, k)) ==>
      Read(c, w + ([CR, LF] + rest)) == Read(d, rest) && LineCounted(c, |w| + 2, d)
      && exists k: nat :: IsChunkLine(u + w, k) && SizeRead(c, HexValue((u + w)[..k]), d)
    ensures (forall k: nat :: !IsChunkLine(u + w, k)) ==> Read(c, w + ([CR, LF] + rest)) == None
    decreases |w|
  {
    hide PassOf, Read, ChunkPass, IsHex, IsChunkLine, AllHex, HexValue;
    d := c;
    if w == "" {
      SizeEnds(u, w);
      assert w + ([CR, LF] + rest) == [CR, LF] + rest;
      d := ReadLineLf(c, rest);
    } else {
      var ch := w[0];
      var tail := w[1..] + ([CR, LF] + rest);
      assert w + ([CR, LF] + rest) == [ch] + tail;
      assert ch in w;
      ChunkPassOf(c.ps, c.skip, ch);
      ChunkFacts(c.ps, ch);
      if IsHex(ch) {
        assert u + [ch] + w[1..] == u + w;
        HexSnoc(u, ch);
        if c.ps.length * 16 + HexDigit(ch) > MAX_CHUNK {
          FailedRead(c, ch, tail);
          TooLong(u, ch, w[1..]);
        } else {
          var c1 := ReadPass(c, ch, ChunkPass(c.ps, c.ps.state.chunk, ch), tail);
          assert c.calls + [] == c.calls;
          d := ReadSizeRest(c1, u + [ch], w[1..], rest);
        }
      } else if ch == ';' || ch == SP {
        SizeEnds(u, w);
        var c1 := ReadPass(c, ch, ChunkPass(c.ps, c.ps.state.chunk, ch), tail);
        assert c.calls + [] == c.calls;
        d := ReadExtension(c1, w[1..], rest);
      } else {
        FailedRead(c, ch, tail);
        NotASize(u, ch, w);
      }
    }
  }

  lemma TooLong(u: string, ch: char, w: string)
    requires AllHex(u + [ch]) && HexValue(u + [ch]) > MAX_CHUNK && u != ""
    ensures forall k: nat :: !IsChunkLine(u + [ch] + w, k)
  {
    var v := u + [ch] + w;
    forall k: nat ensures !IsChunkLine(v, k) {
      if IsChunkLine(v, k) {
        SeparatorsAreNoDigits();
        assert forall i | 0 <= i <= |u| :: v[i] == (u + [ch])[i];
        if |u| < k {
          assert v[..k][..|u| + 1] == u + [ch];
          HexGrows(v[..k], |u| + 1);
        }
      }
    }
  }

  lemma SeparatorsAreNoDigits()
    ensures !IsHex(';') && !IsHex(SP)
  {
  }

  lemma NotASize(u: string, ch: char, w: string)
    requires AllHex(u) && w != "" && ch == w[0] && !IsHex(ch) && ch != ';' && ch != SP
    ensures forall k: nat :: !IsChunkLine(u + w, k)
  {
    var v := u + w;
    forall k: nat ensures !IsChunkLine(v, k) {
      if IsChunkLine(v, k) {
        SeparatorsAreNoDigits();
        SizeBytes(v, k);
        assert v[|u|] == ch && forall i | 0 <= i < |u| :: v[i] == u[i];
      }
    }
  }

  /** A chunk header line is accepted exactly when it starts with hexadecimal digits that denote at most 2^64 - 17
      and end at the line end, a semicolon or a space; the stored size is then the number they denote. */
  lemma ChunkLineExact(c: Config, w: string, rest: string) returns (d: Config)
    requires InSizeLine(c, ChunkSizeStart) && CR !in w
    ensures (exists k: nat :: IsChunkLine(w, k)) ==>
      Read(c, w + ([CR, LF] + rest)) == Read(d, rest) && LineCounted(c, |w| + 2, d)
      && exists k: nat :: IsChunkLine(w, k) && SizeRead(c, HexValue(w[..k]), d)
    ensures (forall k: nat :: !IsChunkLine(w, k)) ==> Read(c, w + ([CR, LF] + rest)) == None
  {
    hide PassOf, Read, ChunkPass, IsHex;
    d := c;
    SeparatorsAreNoDigits();
    var text := w + ([CR, LF] + rest);
    var ch := text[0];
    assert text == [ch] + text[1..];
    ChunkPassOf(c.ps, c.skip, ch);
    ChunkFacts(c.ps, ch);
    if w == "" {
      CrIsNoDigit();
      FailedRead(c, ch, text[1..]);
    } else {
      assert "" + w == w;
      if IsHex(ch) {
        HexSnoc("", ch);
        assert "" + [ch] == [ch] && [ch] + w[1..] == w;
        var c1 := ReadPass(c, ch, ChunkPass(c.ps, c.ps.state.chunk, ch), text[1..]);
        assert text[1..] == w[1..] + ([CR, LF] + rest);
        assert c.calls + [] == c.calls;
        d := ReadSizeRest(c1, [ch], w[1..], rest);
      } else {
        FailedRead(c, ch, text[1..]);
        forall k: nat ensures !IsChunkLine(w, k) {
          if IsChunkLine(w, k) { SizeBytes(w, k); }
        }
      }
    }
  }

  lemma CrIsNoDigit()
    ensures !IsHex(CR)
  {
  }

  /** A chunk: its header line (hexadecimal size and extension) and its data. */
  datatype ChunkText = ChunkText(line: string, data: string)

  /** The line announces n bytes. */
  ghost predicate Announces(line: string, n: nat) {
    CR !in line && exists k: nat :: IsChunkLine(line, k) && HexValue(line[..k]) == n
  }

  ghost predicate GoodChunk(k: ChunkText) {
    k.data != "" && Announces(k.line, |k.data|)
  }

  function Encoded(chunks: seq<ChunkText>): string {
    if chunks == [] then "" else chunks[0].line + ([CR, LF] + (chunks[0].data + ([CR, LF] + Encoded(chunks[1..]))))
  }

  function Whole(chunks: seq<ChunkText>): string {
    if chunks == [] then "" else chunks[0].data + Whole(chunks[1..])
  }

  function ChunkCalls(chunks: seq<ChunkText>): seq<Event> {
    if chunks == [] then []
    else [ChunkHeader(|chunks[0].data|), Data(Kind.Body, chunks[0].data), ChunkComplete] + ChunkCalls(chunks[1..])
  }

  lemma SizeUnique(line: string, j: nat, k: nat)
    requires IsChunkLine(line, j) && IsChunkLine(line, k)
    ensures j == k
  {
    SeparatorsAreNoDigits();
    SizeBytes(line, j);
    SizeBytes(line, k);
  }

  lemma ReadLine(c: Config, line: string, n: nat, rest: string) returns (d: Config)
    requires InSizeLine(c, ChunkSizeStart) && Announces(line, n)
    ensures Read(c, line + ([CR, LF] + rest)) == Read(d, rest) && SizeRead(c, n, d) && LineCounted(c, |line| + 2, d)
  {
    hide Read, SizeRead;
    d := ChunkLineExact(c, line, rest);
    var j: nat :| IsChunkLine(line, j) && HexValue(line[..j]) == n;
    var k: nat :| IsChunkLine(line, k) && SizeRead(c, HexValue(line[..k]), d);
    SizeUnique(line, j, k);
  }

  lemma DataFacts(ps: Parser, ch: char)
    requires ps.state in {State.Chunk(ChunkData), State.Chunk(ChunkDataAlmostDone), State.Chunk(ChunkDataDone)}
    ensures
      ChunkPass(ps, ps.state.chunk, ch)
   == match ps.state.chunk
      case ChunkData =>
        if ps.length <= 1 then Pass(ps.(length := 0, state := State.Chunk(ChunkDataAlmostDone)), Byte(Kind.Body), false, Next)
        else Pass(ps.(length := ps.length - 1), Byte(Kind.Body), false, Next)
      case ChunkDataAlmostDone =>
        if ch == CR then Pass(ps.(state := State.Chunk(ChunkDataDone)), Deliver(Kind.Body), false, Next) else Error(ps, STRICT)
      case _ =>
        if ch == LF then Pass(ps.(state := State.Chunk(ChunkSizeStart)), Call(ChunkComplete), true, Next) else Error(ps, STRICT)
  {
  }

  /** The data of a chunk is delivered and counted down to its last byte. */
  lemma {:induction false} ReadData(c: Config, data: string, rest: string) returns (d: Config)
    requires c.ps.state == State.Chunk(ChunkData) && |data| == c.ps.length > 0
    ensures Read(c, data + rest) == Read(d, rest) && !d.skip
    ensures d.ps == c.ps.(length := 0, state := State.Chunk(ChunkDataAlmostDone))
    ensures d.calls == c.calls && d.pend == Some(Held(c.pend) + data)
    ensures c.n <= c.peak ==> d.n == c.n && d.peak == c.peak
    decreases |data|
  {
    hide PassOf, Read, ChunkPass;
    var ch := data[0];
    assert data + rest == [ch] + (data[1..] + rest);
    ChunkPassOf(c.ps, c.skip, ch);
    DataFacts(c.ps, ch);
    d := ReadPass(c, ch, ChunkPass(c.ps, c.ps.state.chunk, ch), data[1..] + rest);
    assert c.calls + [] == c.calls;
    if |data| == 1 {
      assert data[1..] + rest == rest;
      assert Held(c.pend) + [ch] == Held(c.pend) + data;
    } else {
      d := ReadData(d, data[1..], rest);
      assert Held(c.pend) + [ch] + data[1..] == Held(c.pend) + data;
    }
  }

  /** The line end after the data of a chunk. */
  lemma ReadDataEnd(c: Config, data: string, rest: string) returns (d: Config)
    requires c.ps.state == State.Chunk(ChunkDataAlmostDone) && c.pend == Some(data)
    ensures Read(c, [CR, LF] + rest) == Read(d, rest) && !d.skip && d.pend == None
    ensures d.ps == c.ps.(state := State.Chunk(ChunkSizeStart))
    ensures d.calls == c.calls + [Data(Kind.Body, data), ChunkComplete]
    ensures c.n <= c.peak ==> d.n == 0 && d.peak == c.peak
  {
    hide PassOf, Read, ChunkPass;
    assert [CR, LF] + rest == [CR] + ([LF] + rest);
    ChunkPassOf(c.ps, c.skip, CR);
    DataFacts(c.ps, CR);
    var c1 := ReadPass(c, CR, ChunkPass(c.ps, c.ps.state.chunk, CR), [LF] + rest);
    ChunkPassOf(c1.ps, c1.skip, LF);
    DataFacts(c1.ps, LF);
    d := ReadPass(c1, LF, ChunkPass(c1.ps, c1.ps.state.chunk, LF), rest);
    assert c.calls + [Data(Kind.Body, data)] + [ChunkComplete] == c.calls + [Data(Kind.Body, data), ChunkComplete];
  }

  // Printed sizes

  /** n in base 16, written with the given digits. */
  function HexText(n: nat, digits: string): string
    requires |digits| == 16
  {
    if n < 16 then [digits[n]] else HexText(n / 16, digits) + [digits[n % 16]]
  }

  /** A printed size denotes what was printed. */
  lemma {:induction false} HexPrinted(n: nat, digits: string)
    requires digits == "0123456789abcdef" || digits == "0123456789ABCDEF"
    ensures
      var t := HexText(n, digits);
      t != "" && AllHex(t) && HexValue(t) == n && CR !in t
    decreases n
  {
    var d := digits[n % 16];
    HexDigits(n % 16, digits);
    HexSnoc("", d);
    assert "" + [d] == [d];
    hide IsHex, HexDigit;
    if n >= 16 {
      HexPrinted(n / 16, digits);
      HexSnoc(HexText(n / 16, digits), d);
    }
  }

  lemma HexDigits(i: nat, digits: string)
    requires i < 16 && (digits == "0123456789abcdef" || digits == "0123456789ABCDEF")
    ensures IsHex(digits[i]) && HexDigit(digits[i]) == i && digits[i] != CR && HexValue("") == 0
  {
    DigitValues(i);
    Classes(digits[i]);
  }

  /** A printed size is announced as what was printed. */
  lemma ReadPrintedSize(c: Config, n: nat, digits: string, rest: string) returns (d: Config)
    requires InSizeLine(c, ChunkSizeStart) && n <= 0xFFFF_FFFF_FFFF_FFEF
    requires digits == "0123456789abcdef" || digits == "0123456789ABCDEF"
    ensures Read(c, HexText(n, digits) + ([CR, LF] + rest)) == Read(d, rest) && d.calls == c.calls + [ChunkHeader(n)]
  {
    PrintedAnnounces(n, digits);
    hide Read, Announces;
    d := ReadLine(c, HexText(n, digits), n, rest);
  }

  lemma PrintedAnnounces(n: nat, digits: string)
    requires n <= 0xFFFF_FFFF_FFFF_FFEF && (digits == "0123456789abcdef" || digits == "0123456789ABCDEF")
    ensures Announces(HexText(n, digits), n)
  {
    HexPrinted(n, digits);
    var t := HexText(n, digits);
    hide AllHex, HexValue, HexText;
    assert t[..|t|] == t;
    assert IsChunkLine(t, |t|);
  }

  /** Data cut into chunks, each with its printed size. */
  function Printed(datas: seq<string>, digits: string): seq<ChunkText>
    requires |digits| == 16
  {
    if datas == [] then [] else [ChunkText(HexText(|datas[0]|, digits), datas[0])] + Printed(datas[1..], digits)
  }

  function Joined(datas: seq<string>): string {
    if datas == [] then "" else datas[0] + Joined(datas[1..])
  }

  /** The digits of sizes, with small letters or capitals. */
  predicate AreSixteen(digits: string) {
    digits == "0123456789abcdef" || digits == "0123456789ABCDEF"
  }

  lemma {:induction false} GoodPrinted(datas: seq<string>, digits: string)
    requires AreSixteen(digits)
    requires forall s | s in datas :: 0 < |s| <= 0xFFFF_FFFF_FFFF_FFEF
    ensures (forall k | k in Printed(datas, digits) :: GoodChunk(k)) && Whole(Printed(datas, digits)) == Joined(datas)
    ensures |Printed(datas, digits)| == |datas|
    decreases |datas|
  {
    hide Announces, HexText;
    if datas != [] {
      assert datas[0] in datas && forall s | s in datas[1..] :: s in datas;
      PrintedAnnounces(|datas[0]|, digits);
      GoodPrinted(datas[1..], digits);
      var (k, ks) := (ChunkText(HexText(|datas[0]|, digits), datas[0]), Printed(datas[1..], digits));
      assert ([k] + ks)[0] == k && ([k] + ks)[1..] == ks;
    }
  }

  /** The largest count after the size lines of some chunks, each of which is counted on its own. */
  function LinesPeak(p: nat, chunks: seq<ChunkText>): nat
    decreases |chunks|
  {
    if chunks == [] then p else LinesPeak(Higher(p, |chunks[0].line| + 2), chunks[1..])
  }

  /** The largest count after a chunked body. */
  function BodyPeak(p: nat, b: ChunkedBody): nat {
    Higher(Higher(LinesPeak(p, b.chunks), |b.last| + 2), TrailerSize(b))
  }

  function TrailerSize(b: ChunkedBody): nat {
    |LinesText(b.trailers)| + |b.blank|
  }

  /** A list of chunks: each gives its header, its data and its completion. */
  lemma {:induction false} ReadChunks(c: Config, chunks: seq<ChunkText>, rest: string) returns (d: Config)
    requires InSizeLine(c, ChunkSizeStart) && forall k | k in chunks :: GoodChunk(k)
    ensures Read(c, Encoded(chunks) + rest) == Read(d, rest) && InSizeLine(d, ChunkSizeStart)
    ensures d.ps == c.ps.(length := d.ps.length) && d.calls == c.calls + ChunkCalls(chunks)
    ensures c.n == 0 ==> d.n == 0 && d.peak == LinesPeak(c.peak, chunks)
    decreases |chunks|
  {
    hide Read, Announces;
    d := c;
    assert c.calls + [] == c.calls;
    if chunks == [] {
      assert Encoded(chunks) + rest == rest;
    } else {
      var k := chunks[0];
      assert k in chunks;
      var more := Encoded(chunks[1..]) + rest;
      assert Encoded(chunks) + rest == k.line + ([CR, LF] + (k.data + ([CR, LF] + more)));
      var c1 := ReadLine(c, k.line, |k.data|, k.data + ([CR, LF] + more));
      var c2 := ReadData(c1, k.data, [CR, LF] + more);
      assert "" + k.data == k.data;
      var c3 := ReadDataEnd(c2, k.data, more);
      d := ReadChunks(c3, chunks[1..], rest);
      assert c.calls + [ChunkHeader(|k.data|)] + [Data(Kind.Body, k.data), ChunkComplete] + ChunkCalls(chunks[1..])
          == c.calls + ChunkCalls(chunks);
    }
  }

  lemma TrailerPass(ps: Parser, skip: bool)
    requires ps.state == Ending(HeadersAlmostDone) && ps.flags.trailing
    ensures PassOf(ps, skip, LF) == Pass(ps.(state := State.Content(MessageDone)), Call(ChunkComplete), false, Again)
  {
    hide StartPass, StatusLinePass, TargetPass, VersionPass, ChunkPass, ContentPass;
  }

  /** The blank line after the trailers. */
  lemma ReadTrailerEnd(c: Config, blank: string) returns (d: Config)
    requires c.ps.state == Fields(FieldStart) && c.pend == None && c.ps.flags.trailing && IsLineEnd(blank)
    ensures EndsIn(c, blank, d, Last(c.ps.upgrade)) && d.pend == None
    ensures d.ps == c.ps.(state := NewMessage(c.ps)) && d.calls == c.calls + [ChunkComplete, MessageComplete]
    ensures d.n == c.n + |blank| && d.peak == Higher(c.peak, d.n)
  {
    hide PassOf, Read, NewMessage;
    var b, e := ReadBlankLine(c, blank);
    TrailerPass(e.ps, e.skip);
    var c2 := After(e, LF);
    DonePass(c2.ps, c2.skip, LF);
    NewMessageAnywhere(c.ps, State.Content(MessageDone));
    d := After(c2, LF);
    assert Passes(c2, LF) == (d, Last(c.ps.upgrade));
    assert Passes(e, LF) == Passes(c2, LF);
    assert c.calls + [ChunkComplete] + [MessageComplete] == c.calls + [ChunkComplete, MessageComplete];
  }

  lemma {:induction false} FoldsNoEnd(fs: seq<Fold>)
    ensures NoEnd(FoldCalls(fs))
    decreases |fs|
  {
    if fs != [] { FoldsNoEnd(fs[1..]); }
  }

  lemma {:induction false} HeadersNoEnd(hs: seq<Header>)
    ensures NoEnd(HeaderCalls(hs))
    decreases |hs|
  {
    if hs != [] {
      FoldsNoEnd(hs[0].folds);
      HeadersNoEnd(hs[1..]);
    }
  }

  /** The count after trailers. */
  lemma TrailersCounted(c: Config, ls: seq<Line>, b: Config, d: Config)
    requires c.ps.state == Fields(FieldStart) && c.n == 0 && Read(c, LinesText(ls)) == Some(b) && Ready(b, d)
    requires d.calls == c.calls + HeaderCalls(HeadersOf(ls))
    ensures d.n == |LinesText(ls)| && d.peak == Higher(c.peak, d.n)
  {
    hide Read, LinesText, HeaderCalls, HeadersOf, Finish;
    var all := HeaderCalls(HeadersOf(ls));
    HeadersNoEnd(HeadersOf(ls));
    ReadGrows(c, LinesText(ls));
    assert b.calls <= d.calls;
    assert forall e | e in b.calls[|c.calls|..] :: e in all;
    hide EndsPart;
    ReadCounts(c, LinesText(ls));
  }

  /** A whole chunked body: chunks, a line that announces none, trailers and a blank line. */
  datatype ChunkedBody = ChunkedBody(chunks: seq<ChunkText>, last: string, trailers: seq<Line>, blank: string)

  function ChunkedText(b: ChunkedBody): string {
    Encoded(b.chunks) + (b.last + ([CR, LF] + (LinesText(b.trailers) + b.blank)))
  }

  function ChunkedCalls(b: ChunkedBody): seq<Event> {
    ChunkCalls(b.chunks) + [ChunkHeader(0)] + HeaderCalls(HeadersOf(b.trailers)) + [ChunkComplete, MessageComplete]
  }

  ghost predicate GoodBody(lenient: bool, known: bool, b: ChunkedBody) {
    && (forall k | k in b.chunks :: GoodChunk(k)) && Announces(b.last, 0)
    && GoodLines(lenient, known, b.trailers) && IsLineEnd(b.blank)
  }

  /** The record after a chunked body: its trailers count like headers. */
  predicate BodyEnded(ps: Parser, b: ChunkedBody, ps': Parser) {
    && ps' == ps.(state := ps'.state, index := ps'.index, hstate := ps'.hstate, length := ps'.length,
                  flags := FlagsOf(ps.flags.(trailing := true), HeadersOf(b.trailers)))
    && ps'.state == NewMessage(ps')
  }

  /** The chunked round trip: the chunks are delivered one by one, then the last chunk, the trailers and the end of
      the message, after which the run stops if another protocol follows. */
  lemma ReadChunked(c: Config, b: ChunkedBody) returns (d: Config)
    requires InSizeLine(c, ChunkSizeStart) && c.ps.flags.chunked && GoodBody(c.ps.lenient, c.ps.flags.contentLength, b)
    ensures EndsIn(c, ChunkedText(b), d, Last(c.ps.upgrade)) && d.pend == None
    ensures BodyEnded(c.ps, b, d.ps) && d.calls == c.calls + ChunkedCalls(b)
    ensures c.n == 0 ==> d.n == TrailerSize(b) && d.peak == BodyPeak(c.peak, b)
  {
    hide Read, Announces, GoodHeaders, LinesText, FlagsOf, LengthOf, NewMessage, EndsIn, HeadersOf, NextHeader;
    var lines := LinesText(b.trailers);
    var c1 := ReadChunks(c, b.chunks, b.last + ([CR, LF] + ""));
    var c2 := ReadLine(c1, b.last, 0, "");
    ReadNothing(c2);
    var r, c3 := ReadHeaders(c2, b.trailers);
    FlagsKept(c2.ps.flags, HeadersOf(b.trailers));
    if c.n == 0 { TrailersCounted(c2, b.trailers, r, c3); }
    d := ReadTrailerEnd(c3, b.blank);
    NewMessageAnywhere(c3.ps, NewMessage(c3.ps));
    ReadyReads(r, c3, b.blank);
    var front := Encoded(b.chunks) + (b.last + ([CR, LF] + ""));
    ReadJoin(c, front, lines);
    EndsJoin(c, front + lines, b.blank, d, Last(c.ps.upgrade));
    assert ChunkedText(b) == front + lines + b.blank;
    assert d.calls == c.calls + ChunkedCalls(b);
  }

  /** What further callbacks add to the body data and to the number of notices. */
  predicate Adds(calls: seq<Event>, more: seq<Event>, text: string, n: Tally) {
    var t := Merged(calls);
    var u := Merged(calls + more);
    && Delivered(u, Kind.Body) == Delivered(t, Kind.Body) + text
    && TallyOf(u) == Plus(TallyOf(t), n)
  }

  function Plus(a: Tally, b: Tally): Tally {
    Tally(a.headers + b.headers, a.completes + b.completes, a.messages + b.messages)
  }

  lemma AddsOne(calls: seq<Event>, e: Event)
    ensures Adds(calls, [e], if e.Data? && e.kind.Body? then e.bytes else "", TallyWith(Tally(0, 0, 0), e))
  {
    hide Merged, Add, Delivered, TallyOf;
    MergedSnoc(calls, e);
    DeliveredAdd(Merged(calls), e, Kind.Body);
    TallyAdd(Merged(calls), e);
  }

  lemma AddsNothing(calls: seq<Event>)
    ensures Adds(calls, [], "", Tally(0, 0, 0))
  {
    assert calls + [] == calls;
    var s := Delivered(Merged(calls), Kind.Body);
    assert s + "" == s;
  }

  lemma AddsJoin(calls: seq<Event>, a: seq<Event>, s: string, n: Tally, b: seq<Event>, t: string, m: Tally)
    ensures Adds(calls, a, s, n) && Adds(calls + a, b, t, m) ==> Adds(calls, a + b, s + t, Plus(n, m))
  {
    hide Merged, Delivered, TallyOf;
    assert calls + a + b == calls + (a + b);
    var d := Delivered(Merged(calls), Kind.Body);
    assert d + s + t == d + (s + t);
  }

  /** What chunks add. */
  lemma {:induction false} ChunksDelivered(calls: seq<Event>, chunks: seq<ChunkText>)
    ensures Adds(calls, ChunkCalls(chunks), Whole(chunks), Tally(|chunks|, |chunks|, 0))
    decreases |chunks|
  {
    hide Adds;
    if chunks == [] {
      AddsNothing(calls);
    } else {
      var k := chunks[0];
      var (e1, e2, e3) := (ChunkHeader(|k.data|), Data(Kind.Body, k.data), ChunkComplete);
      AddsOne(calls, e1);
      AddsOne(calls + [e1], e2);
      AddsJoin(calls, [e1], "", Tally(1, 0, 0), [e2], k.data, Tally(0, 0, 0));
      AddsOne(calls + ([e1] + [e2]), e3);
      AddsJoin(calls, [e1] + [e2], "" + k.data, Tally(1, 0, 0), [e3], "", Tally(0, 1, 0));
      ChunksDelivered(calls + ([e1] + [e2] + [e3]), chunks[1..]);
      AddsJoin(calls, [e1] + [e2] + [e3], "" + k.data + "", Tally(1, 1, 0), ChunkCalls(chunks[1..]), Whole(chunks[1..]), Tally(|chunks| - 1, |chunks| - 1, 0));
      assert [e1] + [e2] + [e3] == [e1, e2, e3];
      assert "" + k.data + "" == k.data;
    }
  }

  lemma {:induction false} FoldsDelivered(calls: seq<Event>, fs: seq<Fold>)
    ensures Adds(calls, FoldCalls(fs), "", Tally(0, 0, 0))
    decreases |fs|
  {
    hide Adds;
    if fs == [] {
      AddsNothing(calls);
    } else {
      var e := Data(Kind.Value, fs[0].text);
      AddsOne(calls, e);
      FoldsDelivered(calls + [e], fs[1..]);
      AddsJoin(calls, [e], "", Tally(0, 0, 0), FoldCalls(fs[1..]), "", Tally(0, 0, 0));
      assert "" + "" == "";
    }
  }

  lemma {:induction false} HeadersDelivered(calls: seq<Event>, hs: seq<Header>)
    ensures Adds(calls, HeaderCalls(hs), "", Tally(0, 0, 0))
    decreases |hs|
  {
    hide Adds;
    if hs == [] {
      AddsNothing(calls);
    } else {
      hide FoldCalls;
      var (e1, e2) := (Data(Kind.Field, hs[0].name), Data(Kind.Value, hs[0].value));
      var (two, more, zero) := ([e1] + [e2], FoldCalls(hs[0].folds), Tally(0, 0, 0));
      AddsOne(calls, e1);
      AddsOne(calls + [e1], e2);
      AddsJoin(calls, [e1], "", zero, [e2], "", zero);
      FoldsDelivered(calls + two, hs[0].folds);
      AddsJoin(calls, two, "" + "", zero, more, "", zero);
      HeadersDelivered(calls + (two + more), hs[1..]);
      AddsJoin(calls, two + more, "" + "" + "", zero, HeaderCalls(hs[1..]), "", zero);
      assert two == [e1, e2];
      assert "" + "" + "" + "" == "";
    }
  }

  /** What a whole chunked body adds. */
  lemma ChunkedDelivered(calls: seq<Event>, b: ChunkedBody)
    ensures Adds(calls, ChunkedCalls(b), Whole(b.chunks), Tally(|b.chunks| + 1, |b.chunks| + 1, 1))
  {
    hide Adds, ChunkCalls, HeaderCalls, Whole, HeadersOf;
    var (n, zero) := (|b.chunks|, Tally(0, 0, 0));
    var hs := HeadersOf(b.trailers);
    var a := ChunkCalls(b.chunks);
    var a1 := a + [ChunkHeader(0)];
    var a2 := a1 + HeaderCalls(hs);
    var w := Whole(b.chunks);
    ChunksDelivered(calls, b.chunks);
    AddsOne(calls + a, ChunkHeader(0));
    AddsJoin(calls, a, w, Tally(n, n, 0), [ChunkHeader(0)], "", Tally(1, 0, 0));
    HeadersDelivered(calls + a1, hs);
    AddsJoin(calls, a1, w + "", Tally(n + 1, n, 0), HeaderCalls(hs), "", zero);
    AddsOne(calls + a2, ChunkComplete);
    AddsJoin(calls, a2, w + "" + "", Tally(n + 1, n, 0), [ChunkComplete], "", Tally(0, 1, 0));
    AddsOne(calls + (a2 + [ChunkComplete]), MessageComplete);
    AddsJoin(calls, a2 + [ChunkComplete], w + "" + "" + "", Tally(n + 1, n + 1, 0), [MessageComplete], "", Tally(0, 0, 1));
    assert a2 + [ChunkComplete] + [MessageComplete] == ChunkedCalls(b);
    assert w + "" + "" + "" + "" == w;
  }

  /** The chunked round trip over any partition of the stream into buffers: the body data is the data of the chunks,
      in order, with one header and one completion for each chunk and for the last one, and one end of message. */
  lemma ChunkedRoundTrip(c: Config, b: ChunkedBody, pieces: seq<string>)
    requires InSizeLine(c, ChunkSizeStart) && c.ps.flags.chunked && GoodBody(c.ps.lenient, c.ps.flags.contentLength, b)
    requires (forall i :: 0 <= i < |pieces| ==> pieces[i] != "") && Flatten(pieces) == ChunkedText(b)
    ensures
      var r := RunAll(c, pieces);
      var all := ChunkedCalls(b);
      && r.outcome == (if c.ps.upgrade then Exited else Completed) && BodyEnded(c.ps, b, r.c.ps)
      && TraceOf(r.c) == Merged(c.calls + all)
      && Adds(c.calls, all, Whole(b.chunks), Tally(|b.chunks| + 1, |b.chunks| + 1, 1))
  {
    assert Begin(c) == c.(skip := false);
    hide Read, Merged, GoodBody, RunAll, Flatten, Begin, Add, ChunkedCalls, Whole, Adds, Collecting, ChunkedText, EndsIn, BodyEnded;
    var d := ReadChunked(Begin(c), b);
    EndsInPieces(c, ChunkedText(b), pieces, d, Last(c.ps.upgrade));
    ChunkedDelivered(c.calls, b);
  }

  /** A run from c that completes the message, with this body data and n chunks, the last one included. */
  predicate ComesOut(c: Config, r: RunResult, text: string, n: nat) {
    && r.outcome == (if c.ps.upgrade then Exited else Completed)
    && Delivered(TraceOf(r.c), Kind.Body) == Delivered(Merged(c.calls), Kind.Body) + text
    && TallyOf(TraceOf(r.c)) == Plus(TallyOf(Merged(c.calls)), Tally(n, n, 1))
  }

  /** Any data, cut in any way into non-empty chunks that are printed with their sizes, "0" and a blank line comes out whole
      in any partition of the stream. */
  lemma PrintedRoundTrip(c: Config, datas: seq<string>, digits: string, pieces: seq<string>)
    requires InSizeLine(c, ChunkSizeStart) && c.ps.flags.chunked
    requires AreSixteen(digits) && forall s | s in datas :: 0 < |s| <= 0xFFFF_FFFF_FFFF_FFEF
    requires forall i :: 0 <= i < |pieces| ==> pieces[i] != ""
    requires Flatten(pieces) == ChunkedText(ChunkedBody(Printed(datas, digits), "0", [], [CR, LF]))
    ensures ComesOut(c, RunAll(c, pieces), Joined(datas), |datas| + 1)
  {
    hide ComesOut, GoodBody, RunAll, Flatten, ChunkedText, Whole, Printed, Joined, GoodChunk;
    var b := ChunkedBody(Printed(datas, digits), "0", [], [CR, LF]);
    GoodPrinted(datas, digits);
    GoodLast(b, c.ps.lenient, c.ps.flags.contentLength);
    WholeRoundTrip(c, b, pieces);
  }

  lemma WholeRoundTrip(c: Config, b: ChunkedBody, pieces: seq<string>)
    requires InSizeLine(c, ChunkSizeStart) && c.ps.flags.chunked && GoodBody(c.ps.lenient, c.ps.flags.contentLength, b)
    requires (forall i :: 0 <= i < |pieces| ==> pieces[i] != "") && Flatten(pieces) == ChunkedText(b)
    ensures ComesOut(c, RunAll(c, pieces), Whole(b.chunks), |b.chunks| + 1)
  {
    hide GoodBody, RunAll, Flatten, ChunkedText, ChunkedCalls, Merged, TraceOf, Delivered, TallyOf, Whole, BodyEnded;
    ChunkedRoundTrip(c, b, pieces);
  }

  lemma GoodLast(b: ChunkedBody, lenient: bool, known: bool)
    requires (forall k | k in b.chunks :: GoodChunk(k)) && b.last == "0" && b.trailers == [] && b.blank == [CR, LF]
    ensures GoodBody(lenient, known, b)
  {
    PrintedAnnounces(0, "0123456789abcdef");
    hide GoodChunk, Announces;
  }
}
