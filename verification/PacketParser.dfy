/** http::Parser: the C parser together with the packet its callbacks assemble, and a body buffer filled in place. */
module PacketParsers {
  import opened Http
  import opened Machine
  import opened Budget
  import opened Execute
  import opened Packets
  import opened Assembling

  /** The byte machine at the start of a call, recording the callbacks of that call alone. */
  ghost function CallStart(parser: HttpParser): Config
    reads parser
  {
    parser.Now().(calls := [])
  }

  /** The byte machine at the start of the next call, after a call without an error. */
  function NextStart(c: Config, buffer: string): Config {
    if buffer == "" then c.(calls := [])
    else
      var goal := RunBuffer(c, buffer);
      var spend := Spend(Begin(c), buffer, 0);
      var n := goal.c.n + if spend.Within? then spend.extra else 0;
      Config(goal.c.ps, false, n, n, [], None)
  }

  class PacketParser {
    var status: HandleStatus
    var packet: Packet
    const parser: HttpParser
    var currentField: string
    var body: array?<char>
    var bodyIndex: nat
    var contentLength: nat

    ghost predicate Valid()
      reads this, parser
    {
      parser.Valid()
    }

    ghost function State(): Assembly
      reads this, packet, packet.body, body
    {
      Assembly(status, packet.Value(), currentField, if body == null then None else Some(body[..]), bodyIndex, contentLength)
    }

    /** The body buffer is not that of the packet. */
    ghost predicate Apart()
      reads this, packet
    {
      body == null || packet.body != body
    }

    constructor ()
      ensures Valid() && Apart() && State() == NEW_ASSEMBLY && body == null && packet.body == null
      ensures fresh(this) && fresh(packet) && fresh(parser)
      ensures parser.rec == Init(BOTH) && parser.errno == Errno.OK && parser.nread == 0
    {
      status, currentField, body, bodyIndex, contentLength := StatusError, "", null, 0, 0;
      packet := new Packet();
      parser := new HttpParser(BOTH);
    }

    /** HandleBody: the piece is copied into the buffer, which is allocated for the first one. */
    method HandleBody(s: string) returns (ok: bool)
      requires Apart()
      modifies this`body, this`bodyIndex, body
      ensures Apart() && (State(), ok) == Assembling.HandleBody(old(State()), s)
      ensures body == old(body) || fresh(body)
    {
      if body == null && 0 < contentLength <= MAX_BODY_LENGTH {
        body := new char[contentLength](_ => '\0');
        assert body[..] == Zeros(contentLength);
      }
      if body == null {
        return false;
      }
      if |s| > 0 && bodyIndex + |s| <= contentLength && bodyIndex + |s| <= body.Length {
        CopyInto(body, bodyIndex, s);
        bodyIndex := bodyIndex + |s|;
        return true;
      }
      return false;
    }

    /** One callback of the C parser. */
    method HandleEvent(e: Event) returns (ok: bool)
      requires Apart()
      modifies this`status, this`currentField, this`body, this`bodyIndex, this`contentLength, packet, body
      ensures Apart() && (State(), ok) == Handle(old(State()), e)
      ensures (body == old(body) || body == null || fresh(body)) && (packet.body == old(packet.body) || packet.body == old(body))
    {
      ok := true;
      match e
      case Data(k, s) =>
        if k == Kind.Url {
          packet.SetUrl(s);
        } else if k == Kind.Field {
          currentField := s;
        } else if k == Kind.Value {
          packet.AddHeaderField(currentField, s);
        } else if k == Kind.Body {
          ok := HandleBody(s);
        }
      case MessageBegin =>
      case HeadersComplete(h) =>
        if h.status != 0 {
          packet.Init(h.major, h.minor, h.status, None, Response);
        } else {
          packet.Init(h.major, h.minor, NO_STATUS, Some(h.verb), Request);
        }
        contentLength := h.length % TWO_TO_THE_32;
      case ChunkHeader(_) =>
        status := StatusPartReceived;
      case ChunkComplete =>
      case MessageComplete =>
        if body != null {
          packet.AssignBody(body);
          body := null;
        }
        status := StatusOk;
    }

    /** The callbacks of one call, up to the first that fails. */
    method HandleEvents(es: seq<Event>) returns (n: nat)
      requires Apart()
      modifies this`status, this`currentField, this`body, this`bodyIndex, this`contentLength, packet, body
      ensures Apart() && (State(), n) == HandleAll(old(State()), es)
      ensures body == old(body) || body == null || fresh(body)
      ensures packet.body == old(packet.body) || packet.body == old(body) || packet.body == null || fresh(packet.body)
    {
      hide Handle;
      n := 0;
      var ok := true;
      ghost var start := State();
      assert es[0..] == es;
      while ok && n < |es|
        modifies this`status, this`currentField, this`body, this`bodyIndex, this`contentLength, packet, body
        invariant 0 <= n <= |es| && Apart()
        invariant body == old(body) || body == null || fresh(body)
        invariant packet.body == old(packet.body) || packet.body == old(body) || packet.body == null || fresh(packet.body)
        invariant ok ==> HandleAll(start, es) == (HandleAll(State(), es[n..]).0, n + HandleAll(State(), es[n..]).1)
        invariant !ok ==> HandleAll(start, es) == (State(), n)
        decreases ok, |es| - n
      {
        assert es[n..][0] == es[n] && es[n..][1..] == es[n + 1..];
        ok := HandleEvent(es[n]);
        if ok {
          n := n + 1;
        }
      }
      if ok {
        assert es[n..] == [];
      }
    }

    /** Parser::Parse. When a callback fails the C parser stops with an error; it still counts the whole buffer as
        consumed if that callback was the very last one, because then it was made for the last byte or for the data
        left at the end of the buffer. */
    method Parse(buffer: string) returns (r: HandleStatus)
      requires Valid() && Apart() && |buffer| < 0x8000_0000
      modifies this, parser, packet, body
      ensures Valid() && Apart() && packet == old(packet) && r == status
      ensures body == old(body) || body == null || fresh(body)
      ensures packet.body == old(packet.body) || packet.body == old(body) || packet.body == null || fresh(packet.body)
      ensures old(parser.errno) != Errno.OK ==>
        && parser.errno == old(parser.errno)
        && State() == old(State()).(status := if buffer == "" then StatusPartReceived else StatusError)
      ensures old(parser.errno) == Errno.OK ==>
        var c := old(CallStart(parser));
        var called := CallOf(c, buffer);
        var whole := AllHandled(old(State()).(status := StatusPartReceived), called.calls);
        && State() == Parsed(old(State()), called.calls, called.ret == |buffer|)
        && (parser.errno == Errno.OK <==> called.errno == Errno.OK && whole)
        && (parser.errno == Errno.OK ==> CallStart(parser) == NextStart(c, buffer))
    {
      hide Parsed, AllHandled, RunBuffer, Spend, CallOf, Begin;
      status := StatusPartReceived;
      parser.calls := [];
      var parsed := parser.Execute(buffer);
      ParsedAfresh(old(State()), parser.calls, parsed == |buffer|);
      NothingParsed(old(State()), parsed == |buffer|);
      Assemble(parsed == |buffer|);
      r := status;
    }

    /** The callbacks of a call of the C parser, and what its return value then says. */
    method Assemble(full: bool)
      requires Valid() && Apart() && status == StatusPartReceived
      modifies this, packet, body, parser`errno
      ensures Valid() && Apart() && packet == old(packet) && State() == Parsed(old(State()), parser.calls, full)
      ensures body == old(body) || body == null || fresh(body)
      ensures packet.body == old(packet.body) || packet.body == old(body) || packet.body == null || fresh(packet.body)
      ensures old(parser.errno) != Errno.OK ==> parser.errno == old(parser.errno)
      ensures parser.errno == Errno.OK <==> old(parser.errno) == Errno.OK && AllHandled(old(State()), parser.calls)
    {
      hide Handle, HandleAll, Packet.Value, Parsed;
      var es := parser.calls;
      ParsedFrom(State(), es, full);
      var n := HandleEvents(es);
      if n < |es| && parser.errno == Errno.OK {
        parser.errno := CB_body;
      }
      if !full || n + 1 < |es| {
        status := StatusError;
      }
    }
  }
}
