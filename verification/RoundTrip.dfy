/** Printing a packet and parsing it back: every packet that can be sent is delivered exactly once, as it was. */
module RoundTrips {
  import opened Http
  import opened Machine
  import opened Budget
  import opened Reading
  import opened Split
  import opened Content
  import opened Values
  import opened HeaderLines
  import opened Packets
  import opened PrintedHead
  import opened Assembling
  import opened PacketParsers
  import opened Sessions

  lemma HandleStart(v: PacketValue)
    requires v.mtype == Request || v.url == ""
    ensures AllHandled(START, StartCalls(v))
    ensures HandleAll(START, StartCalls(v)).0 == START.(packet := NEW_PACKET.(url := v.url))
  {
    var (e, f) := (StartCalls(v)[0], StartCalls(v)[1]);
    HandleOne(START, e);
    HandleOne(START, f);
    HandleJoin(START, [e], [f]);
    assert [e] + [f] == StartCalls(v);
  }

  /** The callbacks of a printed head assemble everything but the body. */
  lemma HandleHeadCalls(v: PacketValue)
    requires Sendable(v)
    ensures AllHandled(START, HeadCalls(v))
    ensures
      var a := HandleAll(START, HeadCalls(v)).0;
      if v.body == None then a.packet == v && a.status == StatusOk
      else BodySoFar(a, v, "") && a.status == StatusPartReceived
  {
    hide GoodHeaders, Sorted, IsNumber, Mentions, StartCalls, HeaderCalls, HandleAll;
    var hs := Sorted(v.headers);
    var s := StartCalls(v);
    var h := HeaderCalls(hs);
    var e := HeadersComplete(HeadSeen(v));
    HandleStart(v);
    HandleJoin(START, s, h);
    var a1 := HandleAll(START, s).0;
    HandleHeaders(a1, hs);
    AddSorted(map[], v.headers);
    assert map[] + v.headers == v.headers;
    var a2 := HandleAll(START, s + h).0;
    HandleOne(a2, e);
    HandleJoin(START, s + h, [e]);
    var a3 := HandleAll(START, s + h + [e]).0;
    if v.body == None {
      HandleOne(a3, MessageComplete);
      HandleJoin(START, s + h + [e], [MessageComplete]);
    } else {
      assert s + h + [e] + [] == s + h + [e];
    }
  }

  /** What the session waits for when u of the body of v has arrived. */
  predicate Awaits(w: Waiting, v: PacketValue, u: string) {
    && BodySoFar(w.a, v, u) && |u| < |v.body.value| && w.a.status == StatusPartReceived
    && InBody(w.c) && w.c.ps.length == |v.body.value| - |u| && !w.c.ps.upgrade
    && w.c.calls == [] && w.c.pend == None && w.c.n == 0 && w.c.peak == 0
    && w.ok
  }

  /** The outcome of a run after which u of the body has arrived. */
  predicate RunArrived(goal: RunResult, w: Waiting, v: PacketValue, u: string, size: nat) {
    var a := Parsed(w.a, goal.c.calls, true);
    && goal.outcome == Completed && goal.at == size && !goal.c.ps.state.Fields?
    && AllHandled(w.a.(status := StatusPartReceived), goal.c.calls)
    && if u == BodyText(v) then a.status == StatusOk && a.packet == v
       else
         && a.status == StatusPartReceived && BodySoFar(a, v, u)
         && InBody(goal.c) && goal.c.ps.length == |v.body.value| - |u| && !goal.c.ps.upgrade && goal.c.n == 0
  }

  /** The outcome of a call after which u of the body has arrived. */
  predicate Arrived(w: Waiting, buffer: string, v: PacketValue, u: string) {
    var a := Handled(w, buffer);
    && Sound(w, buffer)
    && if u == BodyText(v) then a.status == StatusOk && a.packet == v
       else a.status == StatusPartReceived && Awaits(Waiting(a, NextStart(w.c, buffer), true), v, u)
  }

  lemma ArrivedCall(w: Waiting, buffer: string, v: PacketValue, u: string)
    requires RunArrived(RunBuffer(w.c, buffer), w, v, u, |buffer|) && RunBuffer(w.c, buffer).c.peak <= HTTP_MAX_HEADER_SIZE
    requires w.ok && w.c.n == w.c.peak && buffer != "" && |u| <= |BodyText(v)| && u == BodyText(v)[..|u|]
    ensures Arrived(w, buffer, v, u)
  {
    hide RunBuffer, Spend, HandleAll, BodySoFar, Begin;
    CallWithin(w.c, buffer);
    assert BodyText(v)[..|BodyText(v)|] == BodyText(v);
  }

  function Pieced(u: string): seq<Event> {
    if u == "" then [] else [Data(Kind.Body, u)]
  }

  /** A run over a head and a first part of the body. */
  lemma RunFirst(v: PacketValue, u: string)
    requires Sendable(v) && |u| <= BodySize(v) && u == BodyText(v)[..|u|]
    ensures
      var r := RunBuffer(FRESH.c, HeadText(v) + u);
      && r.outcome == Completed && r.at == |HeadText(v)| + |u| && r.c.n == 0 && r.c.peak <= |HeadText(v)| && !r.c.ps.state.Fields?
      && (if u == BodyText(v) then r.c.calls == HeadCalls(v) + Pieced(u) + if v.body == None then [] else [MessageComplete]
          else r.c.calls == HeadCalls(v) + Pieced(u) && InBody(r.c) && r.c.ps.length == |v.body.value| - |u| && !r.c.ps.upgrade)
  {
    hide Read, HeadText, HeadCalls, Sendable, Run, NewMessage;
    var c := Begin(FRESH.c);
    assert c == FRESH.c;
    var head := HeadText(v);
    BodyIsSome(v);
    var d := ReadPrinted(c, v);
    ReadPeak(c, head);
    ReadJoin(c, head, u);
    assert [] + HeadCalls(v) == HeadCalls(v);
    if u == "" {
      assert head + u == head;
      var skip := RunWhole(FRESH.c, head);
      assert d.calls + [] == d.calls && d.calls + [] + [] == d.calls;
    } else if u == BodyText(v) {
      var e := ReadBody(d, u);
      EndsRead(d, u, e);
      assert e.(skip := false) == e;
      NewStates(d.ps.(length := 0, state := State.Content(MessageDone)));
      var skip := RunWhole(FRESH.c, head + u);
      assert "" + u == u;
      assert d.calls + [Data(Kind.Body, u), MessageComplete] == d.calls + Pieced(u) + [MessageComplete];
    } else {
      ReadPartOfBody(d, u);
      var skip := RunWhole(FRESH.c, head + u);
      assert "" + u == u;
    }
  }

  lemma BodyIsSome(v: PacketValue)
    requires Sendable(v)
    ensures v.body.Some? <==> BodyText(v) != ""
    ensures |BodyText(v)| == BodySize(v) <= 65535
  {
  }

  /** The first call: the head, and as much of the body as comes with it. */
  lemma FirstCall(v: PacketValue, u: string)
    requires Sendable(v) && |u| <= BodySize(v) && u == BodyText(v)[..|u|] && |HeadText(v)| <= HTTP_MAX_HEADER_SIZE
    requires HeadText(v) + u != ""
    ensures Arrived(FRESH, HeadText(v) + u, v, u)
  {
    FirstRun(v, u);
    BodyIsSome(v);
    hide HeadText, Sendable, RunBuffer, RunArrived, Arrived;
    ArrivedCall(FRESH, HeadText(v) + u, v, u);
  }

  lemma FirstRun(v: PacketValue, u: string)
    requires Sendable(v) && |u| <= BodySize(v) && u == BodyText(v)[..|u|]
    ensures
      var goal := RunBuffer(FRESH.c, HeadText(v) + u);
      RunArrived(goal, FRESH, v, u, |HeadText(v)| + |u|) && goal.c.peak <= |HeadText(v)|
  {
    hide HeadText, HeadCalls, Sendable, RunBuffer, Handle, HandleAll, Zeros;
    BodyIsSome(v);
    RunFirst(v, u);
    HandleHeadCalls(v);
    var a := HandleAll(START, HeadCalls(v)).0;
    var es := HeadCalls(v) + Pieced(u);
    if u == "" {
      assert HeadCalls(v) + [] == HeadCalls(v) && HeadCalls(v) + [] + [] == HeadCalls(v);
    } else {
      HandlePiece(a, v, "", u);
      assert "" + u == u;
      HandleJoin(START, HeadCalls(v), Pieced(u));
      if u == BodyText(v) {
        HandleEnd(HandleAll(START, es).0, v);
        HandleJoin(START, es, [MessageComplete]);
      }
    }
  }

  /** Every further call brings one more piece of the body. */
  lemma FurtherCall(w: Waiting, v: PacketValue, u: string, piece: string)
    requires Awaits(w, v, u) && piece != "" && |u + piece| <= |v.body.value| && u + piece == v.body.value[..|u + piece|]
    ensures Arrived(w, piece, v, u + piece)
  {
    FurtherRun(w, v, u, piece);
    hide RunBuffer, RunArrived, Arrived, BodySoFar;
    ArrivedCall(w, piece, v, u + piece);
  }

  lemma FurtherRun(w: Waiting, v: PacketValue, u: string, piece: string)
    requires Awaits(w, v, u) && piece != "" && |u + piece| <= |v.body.value| && u + piece == v.body.value[..|u + piece|]
    ensures
      var goal := RunBuffer(w.c, piece);
      RunArrived(goal, w, v, u + piece, |piece|) && goal.c.peak == 0
  {
    hide RunBuffer, Handle, HandleAll, Zeros, NewMessage;
    NewStates(w.c.ps.(length := 0, state := State.Content(MessageDone)));
    assert w.a == w.a.(status := StatusPartReceived);
    HandlePiece(w.a, v, u, piece);
    var one := [Data(Kind.Body, piece)];
    assert [] + one == one;
    if u + piece == BodyText(v) {
      EndOfBody(w.c, piece);
      assert "" + piece == piece;
      HandleEnd(HandleAll(w.a, one).0, v);
      HandleJoin(w.a, one, [MessageComplete]);
      assert [] + [Data(Kind.Body, piece), MessageComplete] == one + [MessageComplete];
    } else {
      PieceOfBody(w.c, piece);
    }
  }

  lemma FlattenRest(pieces: seq<string>, i: nat)
    requires i < |pieces|
    ensures Flatten(pieces[i..]) == pieces[i] + Flatten(pieces[i + 1..])
    ensures pieces[i] != "" ==> Flatten(pieces[i..]) != ""
  {
    assert pieces[i..][0] == pieces[i] && pieces[i..][1..] == pieces[i + 1..];
  }

  /** A buffer cut after the head leaves a first part of the body. */
  lemma FirstPiece(v: PacketValue, pieces: seq<string>) returns (u: string)
    requires pieces != [] && Flatten(pieces) == Printed(v) && |pieces[0]| >= |HeadText(v)|
    ensures pieces[0] == HeadText(v) + u && BodyText(v) == u + Flatten(pieces[1..]) && u == BodyText(v)[..|u|]
  {
    hide HeadText;
    FlattenRest(pieces, 0);
    assert pieces[0..] == pieces;
    var head := HeadText(v);
    u := pieces[0][|head|..];
    var all := Printed(v);
    assert pieces[0] == all[..|pieces[0]|] && pieces[0][..|head|] == all[..|head|] == head;
    assert all[|head|..] == BodyText(v);
    assert all[|head|..] == u + Flatten(pieces[1..]);
  }

  /** How far a session has come with v: u of the body has arrived and the last call returned r. */
  ghost predicate Progress(session: SessionObserver, v: PacketValue, u: string, r: HandleStatus, before: seq<PacketValue>)
    reads session, session.current, if session.current == null then {} else {session.current.parser, session.current.packet, session.current.packet.body, session.current.body}
  {
    if u == BodyText(v) then r == StatusOk && session.current == null && session.delivered == before + [v]
    else r == StatusPartReceived && session.delivered == before && Awaits(session.Stage(), v, u)
  }

  method SendHead(session: SessionObserver, piece: string, ghost v: PacketValue, ghost u: string) returns (r: HandleStatus)
    requires session.Valid() && session.current == null && session.registered
    requires Sendable(v) && |HeadText(v)| <= HTTP_MAX_HEADER_SIZE
    requires piece == HeadText(v) + u && |u| <= BodySize(v) && u == BodyText(v)[..|u|] && piece != ""
    modifies session.Footprint()
    ensures session.Valid() && session.registered && session.closed == old(session.closed)
    ensures fresh(session.Footprint() - old(session.Footprint()) - {null})
    ensures Progress(session, v, u, r, old(session.delivered))
  {
    hide HeadText, Sendable, Handled, Sound, NextStart, BodySoFar, InBody;
    BodyIsSome(v);
    FirstCall(v, u);
    r := session.HandleData(piece);
  }

  method SendPiece(session: SessionObserver, piece: string, ghost v: PacketValue, ghost u: string,
                   ghost last: HandleStatus, ghost before: seq<PacketValue>)
    returns (r: HandleStatus)
    requires session.Valid() && session.registered && Progress(session, v, u, last, before)
    requires piece != "" && |u + piece| <= |BodyText(v)| <= 65535 && u + piece == BodyText(v)[..|u + piece|]
    modifies session.Footprint()
    ensures session.Valid() && session.registered && session.closed == old(session.closed)
    ensures fresh(session.Footprint() - old(session.Footprint()) - {null})
    ensures Progress(session, v, u + piece, r, before)
  {
    hide Handled, Sound, NextStart, BodySoFar, InBody;
    FurtherCall(session.Stage(), v, u, piece);
    r := session.HandleData(piece);
  }

  /** The buffers after the first: every call but the last waits for more. */
  method SendRest(session: SessionObserver, pieces: seq<string>, ghost v: PacketValue, ghost before: seq<PacketValue>,
                  first: HandleStatus, ghost start: string)
    returns (rs: seq<HandleStatus>)
    requires session.Valid() && session.registered && pieces != [] && Progress(session, v, start, first, before)
    requires BodyText(v) == start + Flatten(pieces[1..]) && |BodyText(v)| <= 65535
    requires forall i :: 0 <= i < |pieces| ==> pieces[i] != ""
    modifies session.Footprint()
    ensures |rs| == |pieces| && forall i | 0 <= i < |rs| :: rs[i] == if i == |rs| - 1 then StatusOk else StatusPartReceived
    ensures session.current == null && session.closed == old(session.closed) && session.delivered == before + [v]
  {
    hide Flatten, Progress, BodyText;
    ghost var u := start;
    var r := first;
    rs := [r];
    var i := 1;
    while i < |pieces|
      invariant 1 <= i <= |pieces| && session.Valid() && session.registered && session.closed == old(session.closed)
      invariant fresh(session.Footprint() - old(session.Footprint()) - {null})
      invariant BodyText(v) == u + Flatten(pieces[i..])
      invariant Progress(session, v, u, r, before)
      invariant |rs| == i && rs[i - 1] == r && forall j | 0 <= j < i - 1 :: rs[j] == StatusPartReceived
    {
      FlattenRest(pieces, i);
      StillWaiting(session, v, u, r, before);
      assert u + pieces[i] == BodyText(v)[..|u + pieces[i]|];
      r := SendPiece(session, pieces[i], v, u, r, before);
      u := u + pieces[i];
      rs := rs + [r];
      i := i + 1;
    }
    FlattenNothing();
    assert pieces[i..] == [];
    assert u + "" == u;
    Finished(session, v, r, before);
  }

  /** Prints a packet and gives the bytes to a session in any number of buffers, the first of which holds the whole
      head: every call but the last waits for more, and the last one delivers the packet, once and as it was. */
  method Transmit(session: SessionObserver, packet: Packet, pieces: seq<string>) returns (rs: seq<HandleStatus>)
    requires session.Valid() && session.current == null && session.registered
    requires Sendable(packet.Value()) && |HeadText(packet.Value())| <= HTTP_MAX_HEADER_SIZE
    requires pieces != [] && Flatten(pieces) == Printed(packet.Value()) && |pieces[0]| >= |HeadText(packet.Value())|
    requires forall i :: 0 <= i < |pieces| ==> pieces[i] != ""
    modifies session.Footprint()
    ensures |rs| == |pieces| && forall i | 0 <= i < |rs| :: rs[i] == if i == |rs| - 1 then StatusOk else StatusPartReceived
    ensures session.current == null && session.closed == old(session.closed)
    ensures session.delivered == old(session.delivered) + [old(packet.Value())]
  {
    hide HeadText, Sendable, Flatten, Progress, BodyText, Printed;
    ghost var v := packet.Value();
    ghost var before := session.delivered;
    BodyIsSome(v);
    ghost var u := FirstPiece(v, pieces);
    PrintedSize(v);
    var out := packet.Serialize();
    assert out == Buffer(Flatten(pieces));
    var r := SendHead(session, pieces[0], v, u);
    rs := SendRest(session, pieces, v, before, r, u);
  }

  lemma PrintedSize(v: PacketValue)
    requires Sendable(v) && |HeadText(v)| <= HTTP_MAX_HEADER_SIZE
    ensures |Printed(v)| < 0x1_0000_0000 && v.mtype != NoType && v.body != Some("")
  {
    BodyIsSome(v);
    TypeOf(v);
    hide HeadText;
  }

  lemma StillWaiting(session: SessionObserver, v: PacketValue, u: string, r: HandleStatus, before: seq<PacketValue>)
    requires Progress(session, v, u, r, before) && u != BodyText(v)
    ensures r == StatusPartReceived
  {
  }

  lemma Finished(session: SessionObserver, v: PacketValue, r: HandleStatus, before: seq<PacketValue>)
    requires Progress(session, v, BodyText(v), r, before)
    ensures r == StatusOk && session.current == null && session.delivered == before + [v]
  {
  }

  lemma FlattenNothing()
    ensures Flatten([]) == ""
  {
  }
}
