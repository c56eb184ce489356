/** Requests written out, as a new session takes them. */
module Requests {
  import opened Characters
  import opened Http
  import opened Machine
  import opened UrlChar
  import opened UrlGrammar
  import opened Alphabets
  import opened Names
  import opened Values
  import opened HeaderLines
  import opened HeadReading
  import opened Targets
  import opened Framing
  import opened Messages
  import opened Packets
  import opened Assembling
  import opened Sessions
  import opened Deliveries

  /** A request of HTTP/1.1. */
  function Asking(verb: Method, url: string, lines: seq<Line>, length: nat, load: Load): Message {
    Message(Asks("", verb, "", url, "", '1', '1', [CR, LF]), lines, [CR, LF], length, load)
  }

  lemma AskingText(verb: Method, url: string, lines: seq<Line>, length: nat, load: Load)
    ensures
      HeadOfText(Asking(verb, url, lines, length, load))
   == MethodString(verb) + " " + url + " HTTP/1.1\r\n" + (LinesText(lines) + "\r\n")
  {
    hide MethodString, LinesText;
    assert "" + ("HTTP/" + (['1', '.', '1'] + [CR, LF])) == "HTTP/1.1\r\n";
    assert " " + "HTTP/1.1\r\n" == " HTTP/1.1\r\n";
    assert MethodString(verb) + [SP] + ("" + (url + ([SP] + "HTTP/1.1\r\n"))) == MethodString(verb) + " " + url + " HTTP/1.1\r\n";
    assert "" + (MethodString(verb) + " " + url + " HTTP/1.1\r\n") == MethodString(verb) + " " + url + " HTTP/1.1\r\n";
  }

  lemma AskingRecord(m: Message, verb: Method, url: string, lines: seq<Line>)
    requires m == Asking(verb, url, lines, m.length, m.load)
    ensures Record(m).ptype == REQUEST && Record(m).verb == verb && Record(m).status == 0 && Record(m).major == Record(m).minor == 1
  {
    assert Digit('1') == 1;
  }

  // All methods

  /** A target for a request of any method. */
  function SomeTarget(verb: Method): string {
    if verb == CONNECT then "h:1" else "/"
  }

  lemma SomeTargetGood(verb: Method)
    ensures GoodTarget(verb.CONNECT?, SomeTarget(verb))
  {
    if verb == CONNECT { AuthorityGood(); } else { SlashGood(); }
  }

  lemma SlashGood()
    ensures GoodTarget(false, "/")
  {
    assert UrlScan(false, "") == Some(NO_URL);
    assert "/"[..0] == "";
  }

  lemma AuthorityGood()
    ensures GoodTarget(true, "h:1")
  {
    hide UrlScan, ParseUrlChar, StateOf, Grow;
    var (l1, l2, l3) := (NO_URL.(authority := "h"), NO_URL.(authority := "h:"), NO_URL.(authority := "h:1"));
    NothingScanned();
    AuthorityStep("", 'h', "h");
    AuthorityStep("h", ':', "h:");
    AuthorityStep("h:", '1', "h:1");
    AuthorityEnds(l3);
  }

  lemma NothingScanned()
    ensures UrlScan(true, "") == Some(NO_URL)
  {
  }

  lemma AuthorityEnds(l: UrlText)
    requires l == NO_URL.(authority := "h:1")
    ensures UrlMayEnd(StateOf(true, l))
  {
  }

  /** One more byte of an authority. */
  lemma AuthorityStep(a: string, ch: char, b: string)
    requires b == a + [ch] && (a == "" || a[|a| - 1] != '@') && ch in {'h', ':', '1'}
    requires UrlScan(true, a) == Some(NO_URL.(authority := a))
    ensures UrlScan(true, b) == Some(NO_URL.(authority := b))
  {
    ScanSnoc(true, a, ch);
    hide UrlScan;
  }

  lemma GoodPlain(verb: Method)
    ensures
      var m := Asking(verb, SomeTarget(verb), [], ULLONG_MAX, Load.Empty);
      && GoodMessage(m) && Following(m) == (if verb == CONNECT then OtherProtocol else NoBody) && AllHeaders(m) == []
      && Record(m).verb == verb && Record(m).status == 0
  {
    var m := Asking(verb, SomeTarget(verb), [], ULLONG_MAX, Load.Empty);
    AskingRecord(m, verb, SomeTarget(verb), []);
    SomeTargetGood(verb);
    assert HeadersOf([]) == [];
    hide GoodTarget, Opened;
  }

  /** The request line of each of the 34 methods of the map is taken, with its method. */
  lemma MethodTaken(p: (Method, string))
    requires p in METHOD_MAP
    ensures
      var text := p.1 + " " + SomeTarget(p.0) + " HTTP/1.1\r\n" + "\r\n";
      var a := Handled(FRESH, text);
      a.status == StatusOk && a.packet == PacketValue(MessageType.Request, 1, 1, NO_STATUS, Some(p.0), SomeTarget(p.0), map[], None)
  {
    MethodNames();
    hide METHOD_MAP, MethodString, SomeTarget, Handled, Sound, GoodMessage, Following;
    var m := Asking(p.0, SomeTarget(p.0), [], ULLONG_MAX, Load.Empty);
    GoodPlain(p.0);
    AskingText(p.0, SomeTarget(p.0), [], ULLONG_MAX, Load.Empty);
    assert "" + "\r\n" == "\r\n";
    assert LinesText([]) == "";
    assert MessageText(m) == HeadOfText(m) + "" == HeadOfText(m);
    PlainSize(p.0);
    NewSession(m);
    PlainReceived(m, p.0);
  }

  lemma PlainSize(verb: Method)
    ensures |MethodString(verb) + " " + SomeTarget(verb) + " HTTP/1.1\r\n" + "\r\n"| <= 100
  {
    Methods.MethodLength(verb);
    hide MethodString;
  }

  lemma PlainReceived(m: Message, verb: Method)
    requires m == Asking(verb, SomeTarget(verb), [], ULLONG_MAX, Load.Empty) && AllHeaders(m) == []
    ensures Received(m, None) == PacketValue(MessageType.Request, 1, 1, NO_STATUS, Some(verb), SomeTarget(verb), map[], None)
  {
    AskingRecord(m, verb, SomeTarget(verb), []);
    hide SomeTarget, Record, AllHeaders;
    assert AddAll(map[], []) == map[];
  }

  // Bodies

  /** The powers of ten. */
  function Ten(k: nat): nat {
    if k == 0 then 1 else 10 * Ten(k - 1)
  }

  lemma {:induction false} DecimalSize(n: nat, k: nat)
    requires n < Ten(k) && k > 0
    ensures |DecimalText(n)| <= k
    decreases k
  {
    NoLeadingZero(n);
    if n >= 10 { DecimalSize(n / 10, k - 1); }
  }

  lemma Twenty()
    ensures Ten(20) == 100_000_000_000_000_000_000
  {
    assert Ten(2) == 100;
    assert Ten(4) == 10_000;
    assert Ten(6) == 1_000_000;
    assert Ten(8) == 100_000_000;
    assert Ten(10) == 10_000_000_000;
    assert Ten(12) == 1_000_000_000_000;
    assert Ten(14) == 100_000_000_000_000;
    assert Ten(16) == 10_000_000_000_000_000;
    assert Ten(18) == 1_000_000_000_000_000_000;
  }

  const POSTED := "POST / HTTP/1.1\r\n"

  /** A request with a Content-Length, in any spelling. */
  function Posting(name: string, body: string): Message {
    Asking(POST, "/", [Line(Header(name, DecimalText(|body|), []), [SP], [CR, LF])], |body|, Plain(body))
  }

  lemma LengthName(name: string)
    requires IsSpelled(name, "content-length")
    ensures AllTokens(name) && LowerCase(name) == CONTENT_LENGTH && |name| == 14
  {
    SpelledNames(name);
    hide LowerCase;
    forall i | 0 <= i < |name| ensures IsToken(name[i]) {
      InCapital(name[i]);
      assert SameLetter(name[i], "content-length"[i]);
      if name[i] !in CAPITAL { assert name[i] == "content-length"[i]; }
    }
  }

  lemma PrintedNumber(n: nat)
    requires n <= 0xFFFF_FFFF_FFFF_FFF9
    ensures IsNumber(DecimalText(n), n) && IsLength(DecimalText(n), |DecimalText(n)|)
    ensures NoEol(DecimalText(n)) && Legal(false, DecimalText(n)) && DecimalText(n)[0] != SP && DecimalText(n)[0] != HT
  {
    var t := DecimalText(n);
    hide DecimalText, DecValue;
    assert t[..|t|] == t && t[|t|..] == "";
    assert IsLength(t, |t|);
    assert IsNum(t[0]);
  }

  lemma GoodPostingLine(h: Header, n: nat)
    requires n <= 0xFFFF_FFFF_FFFF_FFF9 && IsSpelled(h.name, "content-length") && h.value == DecimalText(n) && h.folds == []
    ensures GoodHeader(false, false, h) && LengthOf(ULLONG_MAX, [h], n)
    ensures Any([h], SaysLength) && !Any([h], SaysChunked) && !Any([h], SaysUpgrade)
  {
    LengthName(h.name);
    PrintedNumber(n);
    assert |CONTENT_LENGTH| == 14 && |TRANSFER_ENCODING| == 17 && |UPGRADE| == 7;
    AnyOne(h, SaysLength);
    AnyOne(h, SaysChunked);
    AnyOne(h, SaysUpgrade);
    hide DecimalText, LowerCase, AllTokens, NoEol, Legal, Any, IsNumber, IsLength, IsSpelled;
    assert IsLength(h.value, |h.value|);
    assert h in [h] && SaysLength(h);
  }

  lemma PostingLines(name: string, body: string)
    ensures HeadersOf(Posting(name, body).lines) == [Header(name, DecimalText(|body|), [])]
    ensures forall l | l in Posting(name, body).lines :: GoodEnds(l)
  {
    var (m, h) := (Posting(name, body), Header(name, DecimalText(|body|), []));
    PrintedLine(h);
    hide DecimalText, GoodEnds, LineText;
    assert m.lines[1..] == [] && HeadersOf([]) == [] && HeadersOf(m.lines) == [h] + [] == [h];
  }

  lemma GoodPosting(name: string, body: string)
    requires 0 < |body| <= 0xFFFF_FFFF_FFFF_FFF9 && IsSpelled(name, "content-length")
    ensures GoodMessage(Posting(name, body)) && Following(Posting(name, body)) == Bytes(|body|)
    ensures HeadersOf(Posting(name, body).lines) == [Header(name, DecimalText(|body|), [])]
  {
    hide *;
    var (m, h) := (Posting(name, body), Header(name, DecimalText(|body|), []));
    PostingLines(name, body);
    GoodPostingLine(h, |body|);
    PostingOpening(name, body);
    PostingFollows(m, h);
    OneGood(h);
    AllGood(m, h, body);
  }

  lemma AllGood(m: Message, h: Header, body: string)
    requires GoodOpening(m.opening) && IsLineEnd(m.blank) && m.length == |body| && m.load == Plain(body)
    requires HeadersOf(m.lines) == [h] && GoodHeaders(false, false, [h]) && (forall l | l in m.lines :: GoodEnds(l))
    requires LengthOf(ULLONG_MAX, [h], m.length) && Following(m) == Bytes(|body|)
    ensures GoodMessage(m)
  {
    hide GoodOpening, IsLineEnd, HeadersOf, GoodHeaders, GoodEnds, LengthOf, Following;
  }

  lemma PostingOpening(name: string, body: string)
    ensures
      var m := Posting(name, body);
      && GoodOpening(m.opening) && IsLineEnd(m.blank) && m.length == |body| && m.load == Plain(body)
      && Record(m).ptype == REQUEST && Record(m).verb == POST && Record(m).status == 0 && Record(m).major == Record(m).minor == 1
  {
    var m := Posting(name, body);
    SlashGood();
    AskingRecord(m, POST, "/", m.lines);
    hide GoodTarget, DecimalText, Opened;
  }

  lemma OneGood(h: Header)
    requires GoodHeader(false, false, h)
    ensures GoodHeaders(false, false, [h])
  {
    hide GoodHeader;
    assert GoodHeaders(false, false, []) && [h][0] == h && [h][1..] == [];
  }

  lemma PostingFollows(m: Message, h: Header)
    requires HeadersOf(m.lines) == [h] && Any([h], SaysLength) && !Any([h], SaysChunked) && !Any([h], SaysUpgrade)
    requires Record(m).verb == POST && m.length > 0
    ensures Following(m) == Bytes(m.length)
  {
    hide Any, HeadersOf, Record, ToTheEnd;
  }

  lemma OneLineText(verb: Method, url: string, name: string, value: string, length: nat, load: Load)
    ensures
      HeadOfText(Asking(verb, url, [Line(Header(name, value, []), [SP], [CR, LF])], length, load))
   == MethodString(verb) + " " + url + " HTTP/1.1\r\n" + (name + ":" + (" " + (value + "\r\n")) + "\r\n")
  {
    var lines := [Line(Header(name, value, []), [SP], [CR, LF])];
    hide MethodString, Asking, HeadOfText;
    AskingText(verb, url, lines, length, load);
    assert lines[1..] == [];
    assert FoldsText([]) + "\r\n" == "\r\n";
    assert LinesText(lines) == LineText(lines[0]) + "" == LineText(lines[0]);
  }

  /** The header, the blank line and the body. */
  function PostText(name: string, body: string): string {
    POSTED + (name + ":" + (" " + (DecimalText(|body|) + "\r\n")) + "\r\n") + body
  }

  lemma PostingText(name: string, body: string)
    ensures MessageText(Posting(name, body)) == HeadOfText(Posting(name, body)) + body == PostText(name, body)
    ensures |HeadOfText(Posting(name, body))| == 23 + |name| + |DecimalText(|body|)|
  {
    hide DecimalText, HeadOfText;
    OneLineText(POST, "/", name, DecimalText(|body|), |body|, Plain(body));
    PostedText();
    hide MethodString, POSTED;
  }

  lemma PostedText()
    ensures MethodString(POST) + " " + "/" + " HTTP/1.1\r\n" == POSTED && |POSTED| == 17
  {
    assert "POST" + " " + "/" == "POST /";
  }

  /** A body with its Content-Length is delivered if and only if it has at most 65535 bytes; a larger one is an error. */
  lemma BodyPosted(name: string, body: string)
    requires 0 < |body| <= 0xFFFF_FFFF_FFFF_FFF9 && IsSpelled(name, "content-length")
    ensures
      var a := Handled(FRESH, PostText(name, body));
      if |body| <= 65535 then
        a.status == StatusOk && a.packet == PacketValue(MessageType.Request, 1, 1, NO_STATUS, Some(POST), "/",
                                                        map[name := DecimalText(|body|)], Some(body))
      else a.status == StatusError
  {
    GoodPosting(name, body);
    PostingText(name, body);
    PostingBound(name, body);
    PostingReceived(name, body);
    PostingOpening(name, body);
    hide DecimalText, Handled, GoodMessage, Following, HeadOfText, Received, Posting, PostText, IsSpelled, MessageText, Record;
    PostedAnswer(Posting(name, body), body);
  }

  /** The head is far below the limit. */
  lemma PostingBound(name: string, body: string)
    requires |body| <= 0xFFFF_FFFF_FFFF_FFF9 && IsSpelled(name, "content-length")
    ensures |HeadOfText(Posting(name, body))| <= 81920
  {
    PostingText(name, body);
    LengthName(name);
    Twenty();
    DecimalSize(|body|, 20);
    hide DecimalText, HeadOfText, Posting, IsSpelled, Ten, LowerCase;
  }

  lemma PostedAnswer(m: Message, body: string)
    requires GoodMessage(m) && Following(m) == Bytes(|body|) && |HeadOfText(m)| <= 81920
    requires m.load == Plain(body)
    ensures
      var a := Handled(FRESH, MessageText(m));
      if |body| <= 65535 then a.status == StatusOk && a.packet == Received(m, Some(body)) else a.status == StatusError
  {
    hide Handled, Sound, GoodMessage, Following, HeadOfText, Received, MessageText;
    NewSession(m);
  }

  lemma OneAdded(h: Header)
    requires h.folds == []
    ensures AddAll(map[], [h]) == map[h.name := h.value]
  {
    assert [h][1..] == [] && AddAll(map[h.name := h.value], []) == map[h.name := h.value];
  }

  lemma PostingReceived(name: string, body: string)
    requires HeadersOf(Posting(name, body).lines) == [Header(name, DecimalText(|body|), [])]
    ensures
      Received(Posting(name, body), Some(body))
   == PacketValue(MessageType.Request, 1, 1, NO_STATUS, Some(POST), "/", map[name := DecimalText(|body|)], Some(body))
  {
    var (m, h) := (Posting(name, body), Header(name, DecimalText(|body|), []));
    PostingOpening(name, body);
    PostingShape(name, body);
    hide *;
    OneReceived(m, h, body);
  }

  lemma PostingShape(name: string, body: string)
    ensures Posting(name, body).opening.Asks? && Posting(name, body).opening.url == "/" && !Posting(name, body).load.InChunks?
  {
    hide DecimalText;
  }

  lemma OneReceived(m: Message, h: Header, body: string)
    requires HeadersOf(m.lines) == [h] && h.folds == [] && !m.load.InChunks? && m.opening.Asks?
    requires Record(m).verb == POST && Record(m).status == 0
    ensures Received(m, Some(body))
         == PacketValue(MessageType.Request, Record(m).major, Record(m).minor, NO_STATUS, Some(POST), m.opening.url, map[h.name := h.value], Some(body))
  {
    hide Record, HeadersOf, AddAll;
    assert AllHeaders(m) == [h] + [] == [h];
    OneAdded(h);
  }
}
