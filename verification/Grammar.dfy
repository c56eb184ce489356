/** The order of callbacks over whole streams. */
module Grammar {
  import opened Characters
  import opened Http
  import opened Machine
  import opened Marks
  import opened UrlChar
  import opened Invariant
  import opened Split
  import opened Scan

  /** How far a message has been reported. */
  datatype Phase =
    | Idle                                    // no message, or a complete one
    | Begun                                   // on_message_begin
    | BegunAgain                              // on_message_begin more than once
    | UrlSeen | StatusSeen                    // the start line
    | FieldSeen(trailer: bool)                // a field name waits for its value
    | ValueSeen(trailer: bool)
    | HeadDone                                // on_headers_complete
    | BodySeen                                // a body that is not chunked
    | ChunkOpen | ChunkFilled | ChunkClosed   // on_chunk_header, on_body, on_chunk_complete
    | TrailerOpen                             // the last chunk
    | TrailerDone

  /** The grammar. A message is: on_message_begin, the URL or the status, any number
      of field names each followed by its value, on_headers_complete, then nothing, a body, or chunks and a
      trailer, and on_message_complete. Any datum may come in several callbacks. on_message_begin may be
      repeated, but then only a status follows. */
  function Step(ph: Phase, e: Event): Option<Phase> {
    match e
    case MessageBegin => if ph.Idle? then Some(Begun) else if HasBegun(ph) then Some(BegunAgain) else None
    case HeadersComplete(_) =>
      if ph.UrlSeen? || ph.StatusSeen? || ph == ValueSeen(false) then Some(HeadDone) else None
    case ChunkHeader(n) =>
      if ph.HeadDone? || ph.ChunkClosed? then Some(if n == 0 then TrailerOpen else ChunkOpen) else None
    case ChunkComplete =>
      if ph.ChunkFilled? then Some(ChunkClosed)
      else if ph.TrailerOpen? || ph == ValueSeen(true) then Some(TrailerDone)
      else None
    case MessageComplete =>
      if ph.HeadDone? || ph.BodySeen? || ph.TrailerDone? then Some(Idle) else None
    case Data(k, _) => DataStep(ph, k)
  }

  predicate HasBegun(ph: Phase) {
    ph.Begun? || ph.BegunAgain?
  }

  function DataStep(ph: Phase, k: Kind): Option<Phase> {
    match k
    case Url => if ph.Begun? || ph.UrlSeen? then Some(UrlSeen) else None
    case Status => if HasBegun(ph) || ph.StatusSeen? then Some(StatusSeen) else None
    case Field =>
      if ph.UrlSeen? || ph.StatusSeen? then Some(FieldSeen(false))
      else if ph.TrailerOpen? then Some(FieldSeen(true))
      else if ph.ValueSeen? || ph.FieldSeen? then Some(FieldSeen(ph.trailer))
      else None
    case Value => if ph.ValueSeen? || ph.FieldSeen? then Some(ValueSeen(ph.trailer)) else None
    case Body =>
      if ph.HeadDone? || ph.BodySeen? then Some(BodySeen)
      else if ph.ChunkOpen? || ph.ChunkFilled? then Some(ChunkFilled)
      else None
  }

  /** The phase after a list of callbacks; None if they break the grammar. */
  function PhaseAfter(calls: seq<Event>): Option<Phase> {
    if calls == [] then Some(Idle)
    else
      match PhaseAfter(calls[..|calls| - 1])
      case None => None
      case Some(ph) => Step(ph, calls[|calls| - 1])
  }

  lemma PhaseSnoc(calls: seq<Event>, e: Event)
    ensures PhaseAfter(calls + [e]) == match PhaseAfter(calls) case None => None case Some(ph) => Step(ph, e)
  {
    assert (calls + [e])[..|calls|] == calls;
  }

  /** A list of callbacks obeys the grammar when every prefix does. */
  lemma {:induction false} PrefixObeys(calls: seq<Event>, n: nat)
    requires n <= |calls| && PhaseAfter(calls).Some?
    ensures PhaseAfter(calls[..n]).Some?
    decreases |calls|
  {
    if n == |calls| {
      assert calls[..n] == calls;
    } else {
      assert calls[..|calls| - 1][..n] == calls[..n];
      PrefixObeys(calls[..|calls| - 1], n);
    }
  }

  /** The phases that go with a state, once what is marked counts as delivered. */
  predicate Agrees(ps: Parser, ph: Phase) {
    match ps.state
    case Dead => ph.Idle?
    case Start(s) =>
      match s {
        case StartReqOrRes => ph.Idle?
        case StartReq => ph.Idle?
        case StartRes => ph.Idle? || HasBegun(ph)
        case ResOrRespH => ph.Begun?
        case ReqMethod => ph.Begun?
      }
    case StatusLine(s) => if s.ResStatus? || s.ResLineAlmostDone? then ph.StatusSeen? else HasBegun(ph)
    case Target(s) => if s.ReqSpacesBeforeUrl? then ph.Begun? else ph.UrlSeen?
    case Version(_) => ph.UrlSeen?
    case Fields(s) =>
      match s {
        case FieldStart => BetweenFields(ps, ph)
        case InField => ph == FieldSeen(ps.flags.trailing)
        case DiscardWs => ph == FieldSeen(ps.flags.trailing)
        case DiscardWsAlmostDone => ph == FieldSeen(ps.flags.trailing)
        case DiscardLws => ph == FieldSeen(ps.flags.trailing)
        case _ => ph == ValueSeen(ps.flags.trailing)
      }
    case Ending(s) => if s.HeadersDone? then ph.HeadDone? else BetweenFields(ps, ph)
    case Chunk(s) =>
      match s {
        case ChunkData => ph.ChunkOpen? || ph.ChunkFilled?
        case ChunkDataAlmostDone => ph.ChunkFilled?
        case ChunkDataDone => ph.ChunkFilled?
        case _ => ph.HeadDone? || ph.ChunkClosed?
      }
    case Content(s) => if s.MessageDone? then ph.BodySeen? || ph.TrailerDone? else ph.HeadDone? || ph.BodySeen?
  }

  predicate BetweenFields(ps: Parser, ph: Phase) {
    || ph == ValueSeen(ps.flags.trailing)
    || (if ps.flags.trailing then ph.TrailerOpen? else ph.UrlSeen? || ph.StatusSeen?)
  }

  /** The phase after the callback an effect makes or will make. */
  function EffectStep(ph: Phase, e: Effect): Option<Phase> {
    match e
    case SetMark(k) => DataStep(ph, k)
    case Byte(k) => DataStep(ph, k)
    case LastByte(k) => DataStep(ph, k)
    case Empty(k) => DataStep(ph, k)
    case Call(ev) => Step(ph, ev)
    case _ => Some(ph)
  }

  /** A pass from an agreeing phase leads to an agreeing phase. */
  predicate Advances(ph: Phase, r: Pass) {
    r.control.Fail? || (EffectStep(ph, r.effect).Some? && Agrees(r.ps, EffectStep(ph, r.effect).value))
  }

  lemma StartAdvances(ps: Parser, s: StartState, ch: char, ph: Phase)
    requires ps.state == Start(s) && Agrees(ps, ph)
    ensures Advances(ph, StartPass(ps, s, ch))
  {
    hide MethodString, FirstLetter, Redirect;
  }

  lemma StatusLineAdvances(ps: Parser, s: StatusLineState, ch: char, ph: Phase)
    requires ps.state == StatusLine(s) && Agrees(ps, ph) && !ps.flags.trailing
    ensures Advances(ph, StatusLinePass(ps, s, ch))
  {
  }

  lemma TargetAdvances(ps: Parser, s: UrlState, ch: char, ph: Phase)
    requires ps.state == Target(s) && Agrees(ps, ph) && !ps.flags.trailing
    ensures Advances(ph, TargetPass(ps, s, ch))
  {
    assert forall u: UrlState, c :: ParseUrlChar(u, c) != Some(ReqSpacesBeforeUrl);
    hide ParseUrlChar;
  }

  lemma VersionAdvances(ps: Parser, s: VersionState, ch: char, ph: Phase)
    requires ps.state == Version(s) && Agrees(ps, ph) && !ps.flags.trailing
    ensures Advances(ph, VersionPass(ps, s, ch))
  {
  }

  lemma FirstValueCharAdvances(ps: Parser, ch: char, ph: Phase)
    requires ph == FieldSeen(ps.flags.trailing) || ph == ValueSeen(ps.flags.trailing)
    ensures Advances(ph, FirstValueChar(ps, ch))
  {
    hide FirstValueState;
  }

  lemma ValueCharAdvances(ps: Parser, ch: char, ph: Phase)
    requires ps.state == Fields(InValue) && ph == ValueSeen(ps.flags.trailing)
    ensures Advances(ph, ValueChar(ps, ch))
  {
    hide FinishFlags, ListChar;
    FinishFlagsKeep(ps.hstate, ps.flags);
  }

  lemma FieldNameAdvances(ps: Parser, s: FieldState, skip: bool, ch: char, ph: Phase)
    requires ps.state == Fields(s) && Agrees(ps, ph) && (s.FieldStart? || s.InField?)
    ensures Advances(ph, FieldsPass(ps, s, skip, ch))
  {
    hide FinishFlags, FirstValueChar, ValueChar, FirstNameChar, NameChar, IsToken;
  }

  lemma FieldEndAdvances(ps: Parser, s: FieldState, skip: bool, ch: char, ph: Phase)
    requires ps.state == Fields(s) && Agrees(ps, ph) && !(s.FieldStart? || s.InField?)
    ensures Advances(ph, FieldsPass(ps, s, skip, ch))
  {
    hide FinishFlags, FirstValueChar, ValueChar, FirstNameChar, NameChar, IsToken;
    FinishFlagsKeep(ps.hstate, ps.flags);
    if s.DiscardWs? || s.ValueStart? {
      FirstValueCharAdvances(ps, ch, ph);
    } else if s.InValue? {
      ValueCharAdvances(ps, ch, ph);
    }
  }

  lemma FieldsAdvances(ps: Parser, s: FieldState, skip: bool, ch: char, ph: Phase)
    requires ps.state == Fields(s) && Agrees(ps, ph)
    ensures Advances(ph, FieldsPass(ps, s, skip, ch))
  {
    hide Agrees, Advances, FieldsPass;
    if s.FieldStart? || s.InField? {
      FieldNameAdvances(ps, s, skip, ch, ph);
    } else {
      FieldEndAdvances(ps, s, skip, ch, ph);
    }
  }

  lemma EndingAdvances(ps: Parser, s: EndingState, ch: char, ph: Phase)
    requires ps.state == Ending(s) && Agrees(ps, ph)
    ensures Advances(ph, EndingPass(ps, s, ch))
  {
  }

  lemma ChunkAdvances(ps: Parser, s: ChunkState, ch: char, ph: Phase)
    requires ps.state == Chunk(s) && Agrees(ps, ph) && !ps.flags.trailing
    ensures Advances(ph, ChunkPass(ps, s, ch))
  {
  }

  lemma ContentAdvances(ps: Parser, s: ContentState, ph: Phase)
    requires ps.state == Content(s) && Agrees(ps, ph)
    ensures Advances(ph, ContentPass(ps, s))
  {
  }

  lemma PassAdvances(ps: Parser, skip: bool, ch: char, ph: Phase)
    requires Sane(ps) && Agrees(ps, ph)
    ensures Advances(ph, PassOf(ps, skip, ch))
  {
    hide Advances, StartPass, StatusLinePass, TargetPass, VersionPass, FieldsPass, EndingPass, ChunkPass, ContentPass;
    match ps.state
    case Dead => DeadAdvances(ps, ch, ph);
    case Start(s) => StartAdvances(ps, s, ch, ph);
    case StatusLine(s) => StatusLineAdvances(ps, s, ch, ph);
    case Target(s) => TargetAdvances(ps, s, ch, ph);
    case Version(s) => VersionAdvances(ps, s, ch, ph);
    case Fields(s) => FieldsAdvances(ps, s, skip, ch, ph);
    case Ending(s) => EndingAdvances(ps, s, ch, ph);
    case Chunk(s) => ChunkAdvances(ps, s, ch, ph);
    case Content(s) => ContentAdvances(ps, s, ph);
  }

  /** In a message that has begun on_message_begin is made again by nothing but s_start_res, for the byte after a stray line
      end: another stray line end, or the beginning of the status line. */
  lemma BeginsAgain(ps: Parser, skip: bool, ch: char, ph: Phase)
    requires Agrees(ps, ph) && HasBegun(ph)
    ensures PassOf(ps, skip, ch).effect == Call(MessageBegin) <==> ps.state == Start(StartRes) && (ch == 'H' || IsEol(ch))
    ensures ps.state == Start(StartRes) && IsEol(ch) ==> PassOf(ps, skip, ch).ps.state == Start(StartRes)
  {
    hide StatusLinePass, TargetPass, VersionPass, FieldsPass, EndingPass, ChunkPass, ContentPass, MethodString, Redirect;
    if ps.state.StatusLine? { NoBeginInStatusLine(ps, ps.state.res, ch); }
    if ps.state.Target? { NoBeginInTarget(ps, ps.state.url, ch); }
  }

  lemma NoBeginInStatusLine(ps: Parser, s: StatusLineState, ch: char)
    ensures !StatusLinePass(ps, s, ch).effect.Call?
  {
  }

  lemma NoBeginInTarget(ps: Parser, s: UrlState, ch: char)
    ensures !TargetPass(ps, s, ch).effect.Call?
  {
  }

  lemma DeadAdvances(ps: Parser, ch: char, ph: Phase)
    requires ps.state.Dead? && Agrees(ps, ph)
    ensures Advances(ph, if IsEol(ch) then Stay(ps) else Error(ps, CLOSED_CONNECTION))
  {
  }

  /** The phase once what is marked is delivered. */
  function PhaseOf(c: Config): Option<Phase> {
    match PhaseAfter(c.calls)
    case None => None
    case Some(ph) => if c.pend.Some? && Collecting(c.ps.state).Some? then DataStep(ph, Collecting(c.ps.state).value) else Some(ph)
  }

  /** The invariant of all runs: the callbacks obey the grammar and the phase agrees with the state. */
  predicate Obeys(c: Config) {
    Sane(c.ps) && PendFits(c) && PhaseOf(c).Some? && Agrees(c.ps, PhaseOf(c).value)
  }

  lemma DataAgain(ph: Phase, k: Kind)
    requires DataStep(ph, k).Some?
    ensures DataStep(DataStep(ph, k).value, k) == DataStep(ph, k)
  {
  }

  lemma ObeysAfter(c: Config, ch: char)
    requires Obeys(c) && !PassOf(c.ps, c.skip, ch).control.Fail?
    ensures Obeys(After(c, ch))
  {
    var r := PassOf(c.ps, c.skip, ch);
    hide PassOf, Sane, Agrees, PhaseAfter, Collecting, DataStep, TraceOf;
    PassKeepsSane(c.ps, c.skip, ch);
    PassSuits(c.ps, c.skip, ch);
    PassAdvances(c.ps, c.skip, ch, PhaseOf(c).value);
    AfterTrace(c, ch);
    match r.effect
    case Nothing => assert c.calls + [] == c.calls;
    case SetMark(k) => assert c.calls + [] == c.calls;
    case Byte(k) =>
      assert c.calls + [] == c.calls;
      if c.pend.Some? { DataAgain(PhaseAfter(c.calls).value, k); }
    case LastByte(k) =>
      PhaseSnoc(c.calls, Data(k, Held(c.pend) + [ch]));
      if c.pend.Some? { DataAgain(PhaseAfter(c.calls).value, k); }
    case Deliver(k) =>
      if c.pend.Some? { PhaseSnoc(c.calls, Data(k, c.pend.value)); } else { assert c.calls + [] == c.calls; }
    case Empty(k) => PhaseSnoc(c.calls, Data(k, ""));
    case Call(e) => PhaseSnoc(c.calls, e);
  }

  lemma {:induction false} PassesObey(c: Config, ch: char)
    requires Obeys(c)
    ensures PhaseAfter(Passes(c, ch).0.calls).Some?
    ensures !Passes(c, ch).1.Fail? ==> Obeys(Passes(c, ch).0)
    decreases Rank(c.ps.state)
  {
    hide PassOf, Obeys, PhaseAfter, PhaseOf;
    if PassOf(c.ps, c.skip, ch).control.Fail? {
      FailAfter(c, ch);
      ObeyingCalls(c);
    } else {
      ObeysAfter(c, ch);
      ObeyingCalls(After(c, ch));
      if PassOf(c.ps, c.skip, ch).control.Again? {
        PassesObey(After(c, ch), ch);
      }
    }
  }

  lemma ObeyingCalls(c: Config)
    requires Obeys(c)
    ensures PhaseAfter(c.calls).Some?
    ensures Obeys(Count(c))
  {
    hide PhaseAfter, Agrees, Sane, Collecting;
  }

  lemma {:induction false} RunObeys(c: Config, data: string, p: nat)
    requires p <= |data| && Obeys(c)
    ensures PhaseAfter(Run(c, data, p).c.calls).Some?
    ensures p < |data| && Run(c, data, p).outcome.Completed? ==> Obeys(Begin(Run(c, data, p).c))
    decreases |data| - p
  {
    hide PassOf, Obeys, PhaseAfter, Passes, Count, End, Begin;
    if p == |data| {
      EndObeys(c);
    } else {
      ObeyingCalls(c);
      PassesObey(Count(c), data[p]);
      var (r, k) := Passes(Count(c), data[p]);
      if k.Next? {
        assert Run(c, data, p) == Run(r, data, p + 1);
        RunObeys(r, data, p + 1);
        if p + 1 == |data| {
          EndObeys(r);
        }
      }
    }
  }

  lemma EndObeys(c: Config)
    requires Obeys(c)
    ensures PhaseAfter(End(c).calls).Some? && Obeys(Begin(End(c)))
  {
    hide PhaseAfter, Sane;
    if c.pend.Some? && Collecting(c.ps.state).Some? {
      PhaseSnoc(c.calls, Data(Collecting(c.ps.state).value, c.pend.value));
      DataAgain(PhaseAfter(c.calls).value, Collecting(c.ps.state).value);
    }
  }

  /** A parser fresh from http_parser_init. */
  function Initial(t: ParserType): Config {
    Config(Init(t), false, 0, 0, [], None)
  }

  /** Over every stream, however it is cut, the callbacks obey the grammar, whether or not the stream ends in an
      error. */
  lemma CallbacksObeyGrammar(t: ParserType, pieces: seq<string>)
    requires forall i :: 0 <= i < |pieces| ==> pieces[i] != ""
    ensures PhaseAfter(RunAll(Initial(t), pieces).c.calls).Some?
  {
    InitialObeys(t);
    hide *;
    AllObey(Initial(t), pieces);
  }

  lemma InitialObeys(t: ParserType)
    ensures Obeys(Begin(Initial(t)))
  {
  }

  lemma {:induction false} AllObey(c: Config, pieces: seq<string>)
    requires Obeys(Begin(c)) && forall i :: 0 <= i < |pieces| ==> pieces[i] != ""
    ensures PhaseAfter(RunAll(c, pieces).c.calls).Some?
    decreases |pieces|
  {
    hide Obeys, PhaseAfter, Run;
    ObeyingCalls(Begin(c));
    if pieces != [] {
      RunObeys(Begin(c), pieces[0], 0);
      var first := RunBuffer(c, pieces[0]);
      if first.outcome.Completed? {
        AllObey(first.c, pieces[1..]);
      }
    }
  }

  /** The end of a stream that delimits a body completes the message. */
  lemma EofCompletes(c: Config)
    requires Obeys(c) && c.ps.state == Content(BodyIdentityEof) && c.pend.None?
    ensures PhaseAfter(c.calls + [MessageComplete]) == Some(Idle)
  {
    PhaseSnoc(c.calls, MessageComplete);
  }

  /** After a message that ends the connection no stream makes another callback: it may only hold CR and LF. */
  lemma {:induction false} DeadIsSilent(c: Config, data: string, p: nat)
    requires p <= |data| && c.ps.state.Dead? && c.pend.None?
    ensures
      var r := Run(c, data, p);
      r.c.calls == c.calls
      && if forall i :: p <= i < |data| ==> IsEol(data[i]) then r.outcome.Completed? && r.c.ps == c.ps
         else r.outcome == Failed(CLOSED_CONNECTION)
    decreases |data| - p
  {
    hide StartPass, StatusLinePass, TargetPass, VersionPass, FieldsPass, EndingPass, ChunkPass, ContentPass;
    if p < |data| {
      var n := Count(c);
      assert n.calls + [] == n.calls;
      if IsEol(data[p]) {
        NextLeads(n, data, p);
        DeadIsSilent(After(n, data[p]), data, p + 1);
      } else {
        StopLeads(n, data, p);
      }
    }
  }
}
