/** The callbacks of http::Parser as a function on what it has assembled. */
module Assembling {
  import opened Http
  import opened HeaderLines
  import opened Packets
  import opened Content
  import opened Split

  datatype HandleStatus = StatusOk | StatusPartReceived | StatusError

  const MAX_BODY_LENGTH := 0xFFFF
  const TWO_TO_THE_32 := 0x1_0000_0000

  /** The fields of http::Parser besides the C parser: `body` is the body buffer, filled up to `index`, and `length` is
      what was announced, as a 32-bit number. */
  datatype Assembly = Assembly(
    status: HandleStatus, packet: PacketValue, field: string, body: Option<string>, index: nat, length: nat)

  const NEW_ASSEMBLY := Assembly(StatusError, NEW_PACKET, "", None, 0, 0)

  /** The fields at the start of a first call. */
  const START := NEW_ASSEMBLY.(status := StatusPartReceived)

  function Zeros(n: nat): (s: string)
    ensures |s| == n
  {
    seq(n, _ => '\0')
  }

  /** HandleBody: false stands for a return value other than 0. */
  function HandleBody(a: Assembly, s: string): (Assembly, bool) {
    var b := if a.body == None && 0 < a.length <= MAX_BODY_LENGTH then a.(body := Some(Zeros(a.length))) else a;
    if b.body == None then (b, false)
    else if |s| > 0 && a.index + |s| <= a.length && a.index + |s| <= |b.body.value| then
      (b.(body := Some(b.body.value[..a.index] + s + b.body.value[a.index + |s|..]), index := a.index + |s|), true)
    else (b, false)
  }

  /** HandleHeaderComplete */
  function HandleHead(a: Assembly, h: Head): Assembly {
    a.(packet :=
         if h.status != 0 then a.packet.(mtype := Response, major := h.major, minor := h.minor, status := h.status, verb := None)
         else a.packet.(mtype := Request, major := h.major, minor := h.minor, status := NO_STATUS, verb := Some(h.verb)),
       length := h.length % TWO_TO_THE_32)
  }

  /** HandleMsgComplete */
  function HandleComplete(a: Assembly): Assembly {
    a.(packet := if a.body == None then a.packet else a.packet.(body := a.body), body := None, status := StatusOk)
  }

  /** One callback. */
  function Handle(a: Assembly, e: Event): (Assembly, bool) {
    match e
    case Data(k, s) =>
      (match k
       case Url => (a.(packet := a.packet.(url := s)), true)
       case Field => (a.(field := s), true)
       case Value => (a.(packet := a.packet.(headers := a.packet.headers[a.field := s])), true)
       case Body => HandleBody(a, s)
       case Status => (a, true))
    case MessageBegin => (a, true)
    case HeadersComplete(h) => (HandleHead(a, h), true)
    case ChunkHeader(_) => (a.(status := StatusPartReceived), true)
    case ChunkComplete => (a, true)
    case MessageComplete => (HandleComplete(a), true)
  }

  /** Callbacks in turn, until one fails; and how many have succeeded. */
  function HandleAll(a: Assembly, es: seq<Event>): (r: (Assembly, nat))
    ensures r.1 <= |es|
    decreases |es|
  {
    if es == [] then (a, 0)
    else
      var (b, ok) := Handle(a, es[0]);
      if ok then
        var (c, n) := HandleAll(b, es[1..]);
        (c, n + 1)
      else (b, 0)
  }

  /** Every callback succeeds. */
  predicate AllHandled(a: Assembly, es: seq<Event>) {
    HandleAll(a, es).1 == |es|
  }

  /** Parser::Parse, seen from its fields: `full` says that the C parser consumed the whole buffer. A callback that
      fails makes it stop early, except the one at the very end of a buffer. */
  function Parsed(a: Assembly, es: seq<Event>, full: bool): Assembly {
    var (b, n) := HandleAll(a.(status := StatusPartReceived), es);
    if full && n + 1 >= |es| then b else b.(status := StatusError)
  }

  /** Parser::Parse starts by setting the status. */
  lemma ParsedAfresh(a: Assembly, es: seq<Event>, full: bool)
    ensures Parsed(a.(status := StatusPartReceived), es, full) == Parsed(a, es, full)
  {
    hide HandleAll;
  }

  lemma ParsedFrom(a: Assembly, es: seq<Event>, full: bool)
    requires a.status == StatusPartReceived
    ensures
      var (b, n) := HandleAll(a, es);
      Parsed(a, es, full) == if full && n + 1 >= |es| then b else b.(status := StatusError)
  {
    hide HandleAll;
    assert a == a.(status := StatusPartReceived);
  }

  lemma NothingParsed(a: Assembly, full: bool)
    ensures Parsed(a, [], full) == a.(status := if full then StatusPartReceived else StatusError)
  {
  }

  lemma {:induction false} HandleJoin(a: Assembly, es: seq<Event>, fs: seq<Event>)
    requires AllHandled(a, es)
    ensures HandleAll(a, es + fs) == (HandleAll(HandleAll(a, es).0, fs).0, |es| + HandleAll(HandleAll(a, es).0, fs).1)
    decreases |es|
  {
    hide Handle;
    if es == [] {
      assert es + fs == fs;
    } else {
      assert (es + fs)[0] == es[0] && (es + fs)[1..] == es[1..] + fs;
      HandleJoin(Handle(a, es[0]).0, es[1..], fs);
    }
  }

  lemma HandleOne(a: Assembly, e: Event)
    requires Handle(a, e).1
    ensures AllHandled(a, [e]) && HandleAll(a, [e]).0 == Handle(a, e).0
  {
    hide Handle;
    assert HandleAll(Handle(a, e).0, []) == (Handle(a, e).0, 0);
  }

  /** Callbacks that neither bring a piece of the body nor end the message never fail. */
  lemma {:induction false} HandleMore(a: Assembly, es: seq<Event>)
    requires a.status == StatusPartReceived && forall e | e in es :: e != MessageComplete && !(e.Data? && e.kind.Body?)
    ensures AllHandled(a, es) && HandleAll(a, es).0.status == StatusPartReceived
    decreases |es|
  {
    if es != [] {
      assert es[0] in es && forall e | e in es[1..] :: e in es;
      HandleMore(Handle(a, es[0]).0, es[1..]);
    }
  }

  /** The values of one header: each takes the place of the one before. */
  lemma {:induction false} HandleFolds(a: Assembly, fs: seq<Fold>)
    ensures AllHandled(a, FoldCalls(fs))
    ensures HandleAll(a, FoldCalls(fs)).0
         == if fs == [] then a else a.(packet := a.packet.(headers := a.packet.headers[a.field := fs[|fs| - 1].text]))
    decreases |fs|
  {
    if fs != [] {
      var (e, es) := (Data(Kind.Value, fs[0].text), FoldCalls(fs));
      assert es[0] == e && es[1..] == FoldCalls(fs[1..]);
      HandleValue(a, fs[0].text);
      HandleFirst(a, es);
      hide Handle, HandleAll, FoldCalls;
      HandleFolds(Handle(a, e).0, fs[1..]);
      SetTwice(a.packet.headers, a.field, fs[0].text, fs[|fs| - 1].text);
    }
  }

  lemma HandleValue(a: Assembly, text: string)
    ensures Handle(a, Data(Kind.Value, text)) == (a.(packet := a.packet.(headers := a.packet.headers[a.field := text])), true)
  {
  }

  lemma HandleFirst(a: Assembly, es: seq<Event>)
    requires es != [] && Handle(a, es[0]).1
    ensures HandleAll(a, es) == (HandleAll(Handle(a, es[0]).0, es[1..]).0, HandleAll(Handle(a, es[0]).0, es[1..]).1 + 1)
  {
    hide Handle;
  }

  lemma SetTwice(m: map<string, string>, k: string, s: string, t: string)
    ensures m[k := s][k := t] == m[k := t]
  {
  }

  lemma HandleHeader(a: Assembly, h: Header)
    ensures AllHandled(a, OneHeaderCalls(h))
    ensures HandleAll(a, OneHeaderCalls(h)).0
         == a.(packet := a.packet.(headers := a.packet.headers[h.name := LastValue(h)]), field := h.name)
  {
    hide HandleAll, FoldCalls;
    var (e, f) := (Data(Kind.Field, h.name), Data(Kind.Value, h.value));
    var (a1, m) := (Handle(a, e).0, a.packet.headers);
    var a2 := Handle(a1, f).0;
    HandleOne(a, e);
    HandleOne(a1, f);
    HandleJoin(a, [e], [f]);
    assert [e] + [f] == [e, f];
    HandleFolds(a2, h.folds);
    HandleJoin(a, [e, f], FoldCalls(h.folds));
    SetTwice(m, h.name, h.value, LastValue(h));
  }

  /** Header callbacks add the headers to the packet; of a header in several lines, the last line. */
  lemma {:induction false} HandleHeaders(a: Assembly, hs: seq<Header>)
    ensures AllHandled(a, HeaderCalls(hs))
    ensures
      var b := HandleAll(a, HeaderCalls(hs)).0;
      b == a.(packet := a.packet.(headers := AddAll(a.packet.headers, hs)), field := b.field)
    decreases |hs|
  {
    if hs != [] {
      hide Handle, HandleAll, LastValue, OneHeaderCalls;
      HandleHeader(a, hs[0]);
      HandleJoin(a, OneHeaderCalls(hs[0]), HeaderCalls(hs[1..]));
      HandleHeaders(HandleAll(a, OneHeaderCalls(hs[0])).0, hs[1..]);
    }
  }

  /** A body of which u has arrived. */
  predicate BodySoFar(a: Assembly, v: PacketValue, u: string) {
    && v.body.Some? && |u| <= |v.body.value| == a.length <= MAX_BODY_LENGTH
    && a.packet == v.(body := None) && a.index == |u|
    && a.body == if u == "" then None else Some(u + Zeros(a.length - |u|))
  }

  lemma PieceCopied(u: string, s: string, n: nat)
    requires |u| + |s| <= n
    ensures
      var all := u + Zeros(n - |u|);
      all[..|u|] + s + all[|u| + |s|..] == u + s + Zeros(n - |u + s|)
  {
    var all := u + Zeros(n - |u|);
    assert all[..|u|] == u;
    assert all[|u| + |s|..] == Zeros(n - |u + s|);
  }

  lemma PieceHandled(a: Assembly, v: PacketValue, u: string, s: string)
    requires BodySoFar(a, v, u) && s != "" && |u| + |s| <= a.length
    ensures HandleBody(a, s) == (a.(body := Some(u + s + Zeros(a.length - |u + s|)), index := |u + s|), true)
  {
    PieceCopied(u, s, a.length);
    assert u == "" ==> u + Zeros(a.length - |u|) == Zeros(a.length);
    hide Zeros;
  }

  /** One more piece of the body. */
  lemma HandlePiece(a: Assembly, v: PacketValue, u: string, s: string)
    requires BodySoFar(a, v, u) && s != "" && |u| + |s| <= a.length
    ensures AllHandled(a, [Data(Kind.Body, s)]) && BodySoFar(HandleAll(a, [Data(Kind.Body, s)]).0, v, u + s)
    ensures HandleAll(a, [Data(Kind.Body, s)]).0.status == a.status
  {
    hide HandleBody, HandleAll, Zeros;
    PieceHandled(a, v, u, s);
    HandleOne(a, Data(Kind.Body, s));
  }

  /** The end of the message hands the body over. */
  lemma HandleEnd(a: Assembly, v: PacketValue)
    requires v.body.Some? && v.body.value != "" && BodySoFar(a, v, v.body.value)
    ensures AllHandled(a, [MessageComplete])
    ensures HandleAll(a, [MessageComplete]).0.packet == v && HandleAll(a, [MessageComplete]).0.status == StatusOk
  {
    HandleOne(a, MessageComplete);
    assert v.body.value + Zeros(0) == v.body.value;
  }

  /** The body buffer of an assembly: allocated in full for the first piece, and filled up to the index. */
  predicate BodyRoom(a: Assembly) {
    a.index <= a.length && if a.body == None then a.index == 0 else |a.body.value| == a.length <= MAX_BODY_LENGTH
  }

  /** A body that comes in pieces is taken if and only if all of it fits into what was announced, and that is at most
      65535 bytes. */
  lemma {:induction false} BodyFits(a: Assembly, pieces: seq<string>)
    requires BodyRoom(a) && pieces != [] && forall i :: 0 <= i < |pieces| ==> pieces[i] != ""
    ensures AllHandled(a, BodyCalls(pieces)) <==> a.index + |Flatten(pieces)| <= a.length <= 65535
    decreases |pieces|
  {
    var (s, rest) := (pieces[0], pieces[1..]);
    var (b, ok) := HandleBody(a, s);
    var es := BodyCalls(pieces);
    assert es[0] == Data(Kind.Body, s) && es[1..] == BodyCalls(rest);
    assert Handle(a, es[0]) == (b, ok);
    assert ok ==> b.index == a.index + |s| && b.length == a.length && b.body.Some? && BodyRoom(b);
    hide HandleBody, Handle, BodyRoom;
    if ok && rest != [] {
      assert forall i :: 0 <= i < |rest| ==> rest[i] == pieces[i + 1];
      BodyFits(b, rest);
    }
  }

  /** So the whole body of a message, which the C parser cuts at the announced length, is taken exactly when that
      length is at most 65535, although only 32 bits of it are kept. A body without a length never is. */
  lemma WholeBodyFits(a: Assembly, h: Head, pieces: seq<string>)
    requires a.body == None && a.index == 0 && pieces != [] && forall i :: 0 <= i < |pieces| ==> pieces[i] != ""
    ensures |Flatten(pieces)| == h.length ==>
      (AllHandled(HandleHead(a, h), BodyCalls(pieces)) <==> h.length <= 65535)
    ensures h.length == 0xFFFF_FFFF_FFFF_FFFF ==> !AllHandled(HandleHead(a, h), BodyCalls(pieces))
  {
    hide Handle, HandleBody, HandleAll;
    BodyFits(HandleHead(a, h), pieces);
  }
}
