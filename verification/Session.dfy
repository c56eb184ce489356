/** SessionObserver: one parser for each packet, and delivery of the packet when it is complete. */
module Sessions {
  import opened Characters
  import opened Http
  import opened Machine
  import opened Scan
  import opened Budget
  import opened Overflow
  import opened Packets
  import opened Assembling
  import opened PacketParsers

  /** What a session is waiting with: the assembled fields, the byte machine at the start of the next call, and whether
      the C parser has reported no error so far. */
  datatype Waiting = Waiting(a: Assembly, c: Config, ok: bool)

  const FRESH := Waiting(NEW_ASSEMBLY, Config(Init(BOTH), false, 0, 0, [], None), true)

  /** What HandleData makes of a buffer. */
  function Handled(w: Waiting, buffer: string): Assembly {
    if w.ok then
      var called := CallOf(w.c, buffer);
      Parsed(w.a, called.calls, called.ret == |buffer|)
    else
      w.a.(status := if buffer == "" then StatusPartReceived else StatusError)
  }

  /** Neither the C parser nor a callback reports an error. */
  predicate Sound(w: Waiting, buffer: string) {
    w.ok && CallOf(w.c, buffer).errno == Errno.OK && AllHandled(w.a.(status := StatusPartReceived), CallOf(w.c, buffer).calls)
  }

  /** A callback before the last one fails. */
  predicate FailsEarly(a: Assembly, es: seq<Event>) {
    HandleAll(a.(status := StatusPartReceived), es).1 + 1 < |es|
  }

  /** When a call exceeds the budget, the C parser has reported an error; but the status is an error only if the overflow
      is not silent, or if a callback has failed before. */
  lemma OverflowStatus(w: Waiting, buffer: string)
    requires w.ok && buffer != ""
    ensures Silent(Begin(w.c), buffer, 0) ==> Spend(Begin(w.c), buffer, 0).Over?
    ensures
      var s := Spend(Begin(w.c), buffer, 0);
      s.Over? ==>
        && !Sound(w, buffer)
        && (Handled(w, buffer).status != StatusError <==> Silent(Begin(w.c), buffer, 0) && !FailsEarly(w.a, s.calls))
  {
    hide Spend, Silent, HandleAll, Begin;
    SilentOverflow(w.c, buffer);
    var s := Spend(Begin(w.c), buffer, 0);
    if s.Over? {
      NoErrorStatus(w.a.(status := StatusPartReceived), s.calls);
    }
  }

  /** Callbacks do not set the error status. */
  lemma {:induction false} NoErrorStatus(a: Assembly, es: seq<Event>)
    requires a.status != StatusError
    ensures HandleAll(a, es).0.status != StatusError
    decreases |es|
  {
    if es != [] {
      OneNoError(a, es[0]);
      hide Handle;
      var (b, ok) := Handle(a, es[0]);
      if ok { NoErrorStatus(b, es[1..]); }
    }
  }

  lemma OneNoError(a: Assembly, e: Event)
    requires a.status != StatusError
    ensures Handle(a, e).0.status != StatusError
  {
  }

  /** Name bytes that fill a buffer and exceed the budget leave the session waiting, with a C parser that takes nothing
      more; followed by a colon, the same bytes are an error. */
  lemma NameOverflow(w: Waiting, name: string)
    requires w.ok && w.c.ps.state == Fields(InField) && w.c.calls == []
    requires name != "" && forall i | 0 <= i < |name| :: IsToken(name[i])
    requires w.c.n < HTTP_MAX_HEADER_SIZE < w.c.n + |name| + 1
    ensures Handled(w, name).status == StatusPartReceived && !Sound(w, name)
    ensures Handled(w, name + ":").status == StatusError
  {
    hide SpendFrom, IsToken;
    var c := Count(Begin(w.c));
    assert !IsToken(':') by { ColonIsNoToken(); }
    assert name + "" == name;
    NameSpending(c, name, "", 0);
    NameSpending(c, name, ":", 0);
  }

  /** So does a buffer that begins with HTTP_MAX_HEADER_SIZE bytes of an unrecognised header value, whatever follows them:
      the rest of the value, its line end, or the end of the head. */
  lemma ValueOverflow(w: Waiting, buffer: string)
    requires w.ok && InGeneralValue(w.c.ps) && w.c.n < HTTP_MAX_HEADER_SIZE < |buffer| && w.c.calls == []
    requires (forall i :: 0 <= i < HTTP_MAX_HEADER_SIZE ==> !IsEol(buffer[i])) && (w.c.ps.lenient || IsHeaderChar(buffer[0]))
    ensures Handled(w, buffer).status == StatusPartReceived && !Sound(w, buffer)
    ensures Silent(Begin(w.c), buffer, 0)
  {
    var c := Begin(w.c);
    CountKept(c);
    GeneralByte(Count(c), buffer[0]);
    hide PassOf, IsEol, IsHeaderChar, SpendOn, Silent;
    assert Passes(Count(c), buffer[0]) == (After(Count(c), buffer[0]), Control.Next);
    assert JumpsOut(Count(c), buffer, 0);
    OverAtOnce(c, buffer);
    SilentOverflow(w.c, buffer);
  }

  lemma OverAtOnce(c: Config, buffer: string)
    requires buffer != "" && c.ps.state == Fields(InValue) && c.n < HTTP_MAX_HEADER_SIZE && !IsEol(buffer[0])
    requires JumpsOut(Count(c), buffer, 0) && Passes(Count(c), buffer[0]).1.Next?
    ensures Spend(c, buffer, 0) == Over(|buffer|, c.calls)
  {
    hide Passes, JumpsOut, IsEol, SpendOn;
  }

  lemma ColonIsNoToken()
    ensures !IsToken(':')
  {
  }

  class SessionObserver {
    var current: PacketParser?
    var registered: bool                // whether an observer has been registered
    var delivered: seq<PacketValue>     // the packets handed to HandlePacket
    var closed: bool                    // whether the session has been closed

    ghost predicate Valid()
      reads this, current, if current == null then {} else {current.parser, current.packet}
    {
      current != null ==> current.Valid() && current.Apart()
    }

    ghost function Stage(): Waiting
      reads this, current, if current == null then {} else {current.parser, current.packet, current.packet.body, current.body}
    {
      if current == null then FRESH
      else Waiting(current.State(), CallStart(current.parser), current.parser.errno == Errno.OK)
    }

    constructor ()
      ensures current == null && !registered && delivered == [] && !closed
    {
      current, registered, delivered, closed := null, false, [], false;
    }

    method RegisterObserver()
      modifies this`registered
      ensures registered
    {
      registered := true;
    }

    /** HandleClose */
    method HandleClose()
      modifies this`current
      ensures current == null
    {
      current := null;
    }

    ghost function Footprint(): set<object?>
      reads this, current
    {
      if current == null then {this} else {this, current, current.parser, current.packet, current.body}
    }

    /** What a call of HandleData does with what Parse has made of the buffer. */
    twostate predicate Concluded(a: Assembly, r: HandleStatus)
      reads this
    {
      match r
      case StatusOk =>
        && current == null && closed == old(closed)
        && delivered == old(delivered) + if registered then [a.packet] else []
      case StatusPartReceived =>
        current != null && closed == old(closed) && delivered == old(delivered)
      case StatusError =>
        current == null && closed && delivered == old(delivered)
    }

    /** SessionObserver::HandleData */
    method HandleData(buffer: string) returns (r: HandleStatus)
      requires Valid() && |buffer| < 0x8000_0000
      modifies Footprint()
      ensures Valid() && fresh(Footprint() - old(Footprint()) - {null}) && registered == old(registered)
      ensures
        var w := old(Stage());
        var a := Handled(w, buffer);
        && r == a.status && Concluded(a, r)
        && (r == StatusPartReceived ==>
              Stage().a == a && Stage().ok == Sound(w, buffer) && (Stage().ok ==> Stage().c == NextStart(w.c, buffer)))
    {
      hide AllHandled, Parsed, Init, NextStart, CallOf, Packet.Value;
      if current == null {
        current := new PacketParser();
      }
      var parser := current;
      r := parser.Parse(buffer);
      if r == StatusOk {
        if registered {
          var packet := parser.packet;
          var v := packet.Copy();
          delivered := delivered + [v];
        }
        current := null;
      } else if r == StatusError {
        current := null;
        closed := true;
      }
    }
  }
}
