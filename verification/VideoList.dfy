/** The response of the application with its list of videos (ApplicationController::ResponseVideoList): it is one of the packets
    for which printing and parsing is a round trip. */
module VideoList {
  import opened Characters
  import opened Http
  import opened Machine
  import opened Names
  import opened Values
  import opened HeaderLines
  import opened Packets
  import opened PrintedHead
  import opened Requests

  const ORIGIN := "Access-Control-Allow-Origin"
  const LIST := "Connection"
  const SIZE := "Content-Length"
  const KEEP := "keep-alive"

  /** The packet with a body. */
  function VideoPacket(body: string): PacketValue {
    PacketValue(MessageType.Response, 1, 1, 200, None, "", map[LIST := KEEP, ORIGIN := "*", SIZE := DecimalText(|body|)], Some(body))
  }

  /** Its fields in the order of their names. */
  function VideoHeaders(n: nat): seq<Header> {
    [Header(ORIGIN, "*", []), Header(LIST, KEEP, []), Header(SIZE, DecimalText(n), [])]
  }

  /** Three header fields, in the order of their names. */
  lemma SortedThree(m: map<string, string>, a: string, b: string, c: string)
    requires m.Keys == {a, b, c} && a != b && a != c && b != c && Leq(a, b) && Leq(a, c) && Leq(b, c)
    ensures Sorted(m) == [Header(a, m[a], []), Header(b, m[b], []), Header(c, m[c], [])]
  {
    hide Leq, Sorted;
    var m1 := m - {a};
    var m2 := m1 - {b};
    FirstOf(m, a);
    FirstOf(m1, b);
    FirstOf(m2, c);
    assert m2 - {c} == map[];
    NothingSorted();
  }

  lemma FirstOf(m: map<string, string>, k: string)
    requires k in m && forall j | j in m :: j == k || Leq(k, j)
    ensures Sorted(m) == [Header(k, m[k], [])] + Sorted(m - {k})
  {
    hide Leq, Sorted;
    SortedStep(m);
    LeqTotal(k, k);
    LeastUnique(k, Least(m.Keys), m.Keys);
  }

  lemma NamesAscend()
    ensures Leq(ORIGIN, LIST) && Leq(ORIGIN, SIZE) && Leq(LIST, SIZE)
    ensures |ORIGIN| == 27 && |LIST| == 10 && |SIZE| == 14
  {
    FirstDifference(ORIGIN, LIST, 0);
    FirstDifference(ORIGIN, SIZE, 0);
    assert LIST[..3] == "Con" == SIZE[..3];
    FirstDifference(LIST, SIZE, 3);
  }

  lemma VideoSorted(body: string)
    ensures Sorted(VideoPacket(body).headers) == VideoHeaders(|body|)
  {
    hide DecimalText, Sorted, ORIGIN, LIST, SIZE, KEEP, Leq;
    NamesAscend();
    SortedThree(VideoPacket(body).headers, ORIGIN, LIST, SIZE);
  }

  lemma LowerSame(s: string, w: string)
    requires |s| == |w| && forall i | 0 <= i < |s| :: TokenLower(s[i]) == w[i]
    ensures LowerCase(s) == w
  {
  }

  lemma NamesLower()
    ensures AllTokens(ORIGIN) && AllTokens(LIST) && AllTokens(SIZE)
    ensures LowerCase(SIZE) == CONTENT_LENGTH
  {
    LowerSame(SIZE, CONTENT_LENGTH);
  }

  lemma NoBlanks()
    ensures NoEol("*") && Legal(false, "*") && !IsBlank("*"[0])
    ensures NoEol(KEEP) && Legal(false, KEEP) && !IsBlank(KEEP[0]) && KEEP != ""
  {
  }

  /** What the three fields are to the parser. */
  lemma VideoNamed(h: Header)
    ensures IsNamed(h, CONTENT_LENGTH) ==> |h.name| == 14
    ensures IsNamed(h, TRANSFER_ENCODING) ==> |h.name| == 17
    ensures IsNamed(h, UPGRADE) ==> |h.name| == 7
  {
    assert |CONTENT_LENGTH| == 14 && |TRANSFER_ENCODING| == 17 && |UPGRADE| == 7;
  }

  lemma GoodVideoHeaders(n: nat)
    requires n <= 65535
    ensures VideoTaken(VideoHeaders(n), n)
  {
    var hs := VideoHeaders(n);
    var (a, b, c) := (hs[0], hs[1], hs[2]);
    GoodFirst(a, b);
    GoodSize(c, n);
    ThreeGood(a, b, c);
    hide *;
    ThreeNamed(a, b, c, n);
    assert hs == [a, b, c] by { hide DecimalText; }
  }

  /** What makes a list of fields fit for sending. */
  ghost predicate VideoTaken(hs: seq<Header>, n: nat) {
    && GoodHeaders(false, false, hs) && !Mentions(hs, TRANSFER_ENCODING) && !Mentions(hs, UPGRADE) && Mentions(hs, CONTENT_LENGTH)
    && forall h | h in hs && IsNamed(h, CONTENT_LENGTH) :: IsNumber(h.value, n)
  }

  lemma GoodFirst(a: Header, b: Header)
    requires a == Header(ORIGIN, "*", []) && b == Header(LIST, KEEP, [])
    ensures GoodHeader(false, false, a) && GoodHeader(false, false, b) && |a.name| == 27 && |b.name| == 10
  {
    NamesAscend();
    NamesLower();
    NoBlanks();
    VideoNamed(a);
    VideoNamed(b);
    hide ORIGIN, LIST, SIZE, KEEP, AllTokens, NoEol, Legal, IsLength, IsNamed;
  }

  lemma GoodSize(c: Header, n: nat)
    requires n <= 65535 && c == Header(SIZE, DecimalText(n), [])
    ensures GoodHeader(false, false, c) && |c.name| == 14 && IsNamed(c, CONTENT_LENGTH) && IsNumber(c.value, n)
  {
    NamesAscend();
    NamesLower();
    PrintedNumber(n);
    hide DecimalText, SIZE, LowerCase, AllTokens, NoEol, Legal, IsLength, IsNumber;
    assert IsLength(c.value, |c.value|);
  }

  lemma ThreeNamed(a: Header, b: Header, c: Header, n: nat)
    requires |a.name| == 27 && |b.name| == 10 && |c.name| == 14 && IsNamed(c, CONTENT_LENGTH) && IsNumber(c.value, n)
    requires GoodHeaders(false, false, [a, b, c])
    ensures VideoTaken([a, b, c], n)
  {
    hide IsNamed, IsNumber, GoodHeaders;
    var hs := [a, b, c];
    forall h | h in hs { VideoNamed(h); }
    assert c in hs;
  }

  lemma ThreeGood(a: Header, b: Header, c: Header)
    requires GoodHeader(false, false, a) && GoodHeader(false, false, b) && GoodHeader(false, false, c) && |a.name| == 27 && |b.name| == 10
    ensures GoodHeaders(false, false, [a, b, c])
  {
    VideoNamed(a);
    VideoNamed(b);
    hide GoodHeader, IsNamed;
    assert [a, b, c][1..] == [b, c] && [b, c][1..] == [c] && [c][1..] == [];
    assert GoodHeaders(false, false || IsNamed(c, CONTENT_LENGTH), []);
    assert GoodHeaders(false, false, [c]);
    assert GoodHeaders(false, false, [b, c]);
  }

  /** The packet can be sent, for every body of 1 to 65535 bytes; so it survives printing and parsing. */
  lemma VideoSendable(body: string)
    requires 1 <= |body| <= 65535
    ensures Sendable(VideoPacket(body))
  {
    VideoSorted(body);
    GoodVideoHeaders(|body|);
    hide VideoHeaders, GoodHeaders, Mentions, IsNumber, IsNamed;
    TakenSends(VideoPacket(body), body);
  }

  lemma TakenSends(v: PacketValue, body: string)
    requires v == PacketValue(MessageType.Response, 1, 1, 200, None, "", v.headers, Some(body)) && 1 <= |body| <= 65535
    requires VideoTaken(Sorted(v.headers), |body|)
    ensures Sendable(v)
  {
    hide GoodHeaders, Mentions, IsNumber, IsNamed, Sorted;
  }

  // What it prints

  const OK_LINE := "HTTP/1.1 200 OK\r\n"

  lemma OkLine(v: PacketValue)
    requires v == PacketValue(MessageType.Response, 1, 1, 200, None, "", v.headers, v.body)
    ensures StartLine(v) == OK_LINE == "HTTP/1.1 200 OK\r\n"
  {
    PrintedOk();
    var ok := PacketValue(MessageType.Response, 1, 1, 200, None, "", map[], None);
    assert StartLine(v) == StartLine(ok) by { hide StatusName, DecimalText; }
    NothingSorted();
    hide StartLine;
    assert Printed(ok) == StartLine(ok) + [CR, LF];
    assert OK_LINE + [CR, LF] == "HTTP/1.1 200 OK\r\n\r\n";
    assert (StartLine(ok) + [CR, LF])[..|StartLine(ok)|] == StartLine(ok);
    assert (OK_LINE + [CR, LF])[..|OK_LINE|] == OK_LINE;
  }

  lemma ThreeLines(a: Header, b: Header, c: Header)
    ensures HeadersText([a, b, c]) == HeaderText(a.name, a.value) + (HeaderText(b.name, b.value) + HeaderText(c.name, c.value))
  {
    hide HeaderText;
    assert [a, b, c][1..] == [b, c] && [b, c][1..] == [c] && [c][1..] == [];
    assert HeadersText([c]) == HeaderText(c.name, c.value) + "" == HeaderText(c.name, c.value);
  }

  lemma FieldLines(n: nat)
    ensures HeaderText(ORIGIN, "*") == "Access-Control-Allow-Origin: *\r\n"
    ensures HeaderText(LIST, KEEP) == "Connection: keep-alive\r\n"
    ensures HeaderText(SIZE, DecimalText(n)) == "Content-Length: " + DecimalText(n) + "\r\n"
  {
    hide DecimalText;
    assert SIZE + ":" + [SP] == "Content-Length: ";
  }

  /** What the response prints, byte for byte; and its head is within the budget. */
  lemma VideoPrinted(body: string)
    requires |body| <= 65535
    ensures
      Printed(VideoPacket(body))
   == "HTTP/1.1 200 OK\r\n"
      + ("Access-Control-Allow-Origin: *\r\n" + ("Connection: keep-alive\r\n" + ("Content-Length: " + DecimalText(|body|) + "\r\n")))
      + "\r\n" + body
    ensures |HeadText(VideoPacket(body))| <= 81920
  {
    hide HeaderText, DecimalText, StartLine, Sorted, HeadersText, OK_LINE, ORIGIN, LIST, SIZE, KEEP;
    var (v, hs) := (VideoPacket(body), VideoHeaders(|body|));
    VideoSorted(body);
    OkLine(v);
    assert hs == [hs[0], hs[1], hs[2]];
    ThreeLines(hs[0], hs[1], hs[2]);
    FieldLines(|body|);
    HeadIs(v, OK_LINE, HeadersText(hs));
    assert Ten(5) == 100000 by { assert Ten(2) == 100; }
    DecimalSize(|body|, 5);
  }

  lemma HeadIs(v: PacketValue, line: string, fields: string)
    requires StartLine(v) == line && HeadersText(Sorted(v.headers)) == fields
    ensures HeadText(v) == line + fields + "\r\n"
  {
    hide StartLine, HeadersText, Sorted;
  }
}
