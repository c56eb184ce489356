/** The reachable-state invariant: what the asserts and "cannot happen" branches of http_parser_execute rely on. */
module Invariant {
  import opened Characters
  import opened Http
  import opened Machine
  import opened UrlChar

  /** The header states of a field name being read, with the index inside the keyword. */
  predicate NameState(h: HeaderState, i: nat) {
    match h
    case General | Connection | ContentLength | TransferEncoding | Upgrade => i <= 16
    case C => i == 0
    case CO => i == 1
    case CON => i == 2
    case MatchingConnection => 3 <= i < |CONNECTION| - 1
    case MatchingProxyConnection => i < |PROXY_CONNECTION| - 1
    case MatchingContentLength => 3 <= i < |CONTENT_LENGTH| - 1
    case MatchingTransferEncoding => i < |TRANSFER_ENCODING| - 1
    case MatchingUpgrade => i < |UPGRADE| - 1
    case _ => false
  }

  /** The header states of a value being read: never the ones asserted out in the value loop. */
  predicate ValueState(h: HeaderState, i: nat) {
    match h
    case General | ContentLengthNum | ContentLengthWs | MatchingConnectionToken
       | TransferEncodingChunked | ConnectionKeepAlive | ConnectionClose | ConnectionUpgrade => i <= 10
    case MatchingConnectionTokenStart => i == 0
    case MatchingTransferEncodingChunked => i < |CHUNKED| - 1
    case MatchingConnectionKeepAlive => i < |KEEP_ALIVE| - 1
    case MatchingConnectionClose => i < |CLOSE| - 1
    case MatchingConnectionUpgrade => i < |UPGRADE| - 1
    case _ => false
  }

  /** In a message head, up to the end of its header lines, the length is the sentinel exactly while no
      Content-Length was seen. */
  predicate HeadSane(ps: Parser) {
    !ps.flags.trailing && (ps.flags.contentLength <==> ps.length != ULLONG_MAX)
  }

  /** Header lines occur in a head or in the trailer of a chunked body. */
  predicate FieldsSane(ps: Parser) {
    if ps.flags.trailing then ps.flags.chunked else HeadSane(ps)
  }

  predicate Sane(ps: Parser) {
    && ps.length <= ULLONG_MAX
    && ps.status <= 999
    && match ps.state
       case Dead => true
       case Start(s) =>
         match s {
           case ResOrRespH => HeadSane(ps)
           case ReqMethod => HeadSane(ps) && 1 <= ps.index <= |MethodString(ps.verb)|
           case _ => true
         }
       case StatusLine(_) => HeadSane(ps)
       case Target(_) => HeadSane(ps)
       case Version(_) => HeadSane(ps)
       case Fields(s) =>
         && FieldsSane(ps)
         && (s.InField? ==> NameState(ps.hstate, ps.index))
         && (s.ValueStart? || s.InValue? || s.ValueLws? || s.ValueAlmostDone? ==> ValueState(ps.hstate, ps.index))
       case Ending(s) => if s.HeadersDone? then HeadSane(ps) else FieldsSane(ps)
       case Chunk(s) =>
         && ps.flags.chunked && !ps.flags.trailing
         && (s.ChunkSize? || s.ChunkParameters? || s.ChunkSizeAlmostDone? ==> ps.length < ULLONG_MAX)
         && (s.ChunkData? ==> 0 < ps.length < ULLONG_MAX)
         && (s.ChunkDataAlmostDone? || s.ChunkDataDone? ==> ps.length == 0)
       case Content(s) =>
         && (s.BodyIdentity? ==> 0 < ps.length < ULLONG_MAX)
         && (s.BodyIdentityEof? ==> ps.length == ULLONG_MAX)
  }

  /** What a pass that does not fail promises: the invariant, and a fresh byte count wherever a chunk size begins. */
  predicate Keeps(r: Pass) {
    !r.control.Fail? ==> Sane(r.ps) && (r.ps.state == Chunk(ChunkSizeStart) ==> r.reset)
  }

  /** Redirecting to another method leaves the index inside that method's name. */
  lemma RedirectFits(m: Method, i: nat, ch: char)
    ensures Redirect(m, i, ch).Some? ==> i < |MethodString(Redirect(m, i, ch).value)|
  {
    RedirectEarly(m, i, ch);
    if Redirect(m, i, ch).Some? { MethodIsLonger(Redirect(m, i, ch).value); }
    hide Redirect, MethodString;
  }

  lemma RedirectEarly(m: Method, i: nat, ch: char)
    ensures Redirect(m, i, ch).Some? ==> i <= 4 && (i == 4 ==> Redirect(m, i, ch) == Some(PROPPATCH)) && (i == 3 ==> Redirect(m, i, ch).value in {MKCALENDAR, UNLINK})
  {
  }

  lemma MethodIsLonger(m: Method)
    ensures |MethodString(m)| >= 3 && (m in {PROPPATCH, MKCALENDAR, UNLINK} ==> |MethodString(m)| >= 6)
  {
  }

  lemma FirstLetterFits(ch: char)
    ensures FirstLetter(ch).Some? ==> 1 <= |MethodString(FirstLetter(ch).value)|
  {
  }

  lemma StartKeepsSane(ps: Parser, s: StartState, ch: char)
    requires Sane(ps) && ps.state == Start(s)
    ensures Keeps(StartPass(ps, s, ch))
  {
    assert |MethodString(HEAD)| == 4;
    hide MethodString, FirstLetter, Redirect;
    RedirectFits(ps.verb, ps.index, ch);
    FirstLetterFits(ch);
  }

  lemma StatusLineKeepsSane(ps: Parser, s: StatusLineState, ch: char)
    requires Sane(ps) && ps.state == StatusLine(s)
    ensures Keeps(StatusLinePass(ps, s, ch))
  {
    hide MethodString, ValueState, NameState;
  }

  lemma TargetKeepsSane(ps: Parser, s: UrlState, ch: char)
    requires Sane(ps) && ps.state == Target(s)
    ensures Keeps(TargetPass(ps, s, ch))
  {
    hide ParseUrlChar;
  }

  lemma VersionKeepsSane(ps: Parser, s: VersionState, ch: char)
    requires Sane(ps) && ps.state == Version(s)
    ensures Keeps(VersionPass(ps, s, ch))
  {
  }

  lemma NameCharKeeps(h: HeaderState, i: nat, c: char)
    requires NameState(h, i)
    ensures NameState(NameChar(h, i, c).0, NameChar(h, i, c).1)
  {
  }

  lemma ListCharKeeps(h: HeaderState, i: nat, ch: char)
    requires ValueState(h, i) && !h.ContentLengthNum? && !h.ContentLengthWs?
    ensures ValueState(ListChar(h, i, ch).0, ListChar(h, i, ch).1)
  {
  }

  lemma FirstValueStateFits(h: HeaderState, c: char)
    ensures ValueState(FirstValueState(h, c), 0)
  {
  }

  lemma FirstValueCharKeepsSane(ps: Parser, ch: char)
    requires FieldsSane(ps) && ps.length <= ULLONG_MAX && ps.status <= 999
    ensures Keeps(FirstValueChar(ps, ch))
  {
    hide NameState, ValueState, FirstValueState;
    FirstValueStateFits(ps.hstate, Lower(ch));
  }

  lemma ValueCharKeepsSane(ps: Parser, ch: char)
    requires Sane(ps) && ps.state == Fields(InValue)
    ensures Keeps(ValueChar(ps, ch))
  {
    hide ListChar;
    if !ps.hstate.ContentLengthNum? && !ps.hstate.ContentLengthWs? {
      ListCharKeeps(ps.hstate, ps.index, ch);
    }
  }

  lemma FirstNameCharFits(c: char)
    ensures NameState(FirstNameChar(c), 0)
  {
  }

  lemma FieldStartKeepsSane(ps: Parser, ch: char)
    requires Sane(ps) && ps.state == Fields(FieldStart)
    ensures Keeps(FieldsPass(ps, FieldStart, false, ch))
  {
    hide FirstNameChar, ValueState, NameState, ValueChar, FirstValueChar, NameChar, TokenLower, IsToken, MethodString;
    FirstNameCharFits(TokenLower(ch));
  }

  lemma InFieldKeepsSane(ps: Parser, ch: char)
    requires Sane(ps) && ps.state == Fields(InField)
    ensures Keeps(FieldsPass(ps, InField, false, ch))
  {
    hide FirstNameChar, ValueState, NameState, ValueChar, FirstValueChar, NameChar, TokenLower, IsToken, MethodString;
    NameCharKeeps(ps.hstate, ps.index, TokenLower(ch));
  }

  lemma FinishFlagsKeep(h: HeaderState, flags: Flags)
    ensures FinishFlags(h, flags).trailing == flags.trailing
    ensures FinishFlags(h, flags).contentLength == flags.contentLength
    ensures flags.chunked ==> FinishFlags(h, flags).chunked
  {
    assert FinishFlags(h, flags) in {
      flags, flags.(connectionKeepAlive := true), flags.(connectionClose := true), flags.(connectionUpgrade := true),
      flags.(chunked := true)};
  }

  lemma FieldEndKeepsSane(ps: Parser, s: FieldState, ch: char)
    requires Sane(ps) && ps.state == Fields(s) && (s.DiscardLws? || s.ValueLws? || s.DiscardWsAlmostDone? || s.ValueAlmostDone?)
    ensures Keeps(FieldsPass(ps, s, false, ch))
  {
    hide FinishFlags, NameState, ValueState;
    FinishFlagsKeep(ps.hstate, ps.flags);
  }

  lemma FieldsKeepsSane(ps: Parser, s: FieldState, skip: bool, ch: char)
    requires Sane(ps) && ps.state == Fields(s)
    ensures Keeps(FieldsPass(ps, s, skip, ch))
  {
    hide NameChar, ValueChar, FirstValueChar, ValueState, NameState, FinishFlags, FirstNameChar;
    match s
    case FieldStart => FieldStartKeepsSane(ps, ch);
    case InField => InFieldKeepsSane(ps, ch);
    case DiscardWs => FirstValueCharKeepsSane(ps, ch);
    case ValueStart => FirstValueCharKeepsSane(ps, ch);
    case InValue => ValueCharKeepsSane(ps, ch);
    case _ => FieldEndKeepsSane(ps, s, ch);
  }

  lemma EndingKeepsSane(ps: Parser, s: EndingState, ch: char)
    requires Sane(ps) && ps.state == Ending(s)
    ensures Keeps(EndingPass(ps, s, ch))
  {
  }

  lemma ChunkKeepsSane(ps: Parser, s: ChunkState, ch: char)
    requires Sane(ps) && ps.state == Chunk(s)
    ensures Keeps(ChunkPass(ps, s, ch))
  {
    hide MethodString, NameState, ValueState, IsHex, HexDigit;
    if s.ChunkSize? || s.ChunkSizeStart? {
      DigitKeepsSane(ps, s, ch);
    }
  }

  /** One more digit of a chunk size that has passed the check does not wrap around. */
  lemma DigitKeepsSane(ps: Parser, s: ChunkState, ch: char)
    requires Sane(ps) && ps.state == Chunk(s) && (s.ChunkSize? || s.ChunkSizeStart?)
    ensures Keeps(ChunkPass(ps, s, ch))
  {
    hide MethodString, NameState, ValueState;
  }

  lemma ContentKeepsSane(ps: Parser, s: ContentState)
    requires Sane(ps) && ps.state == Content(s)
    ensures Keeps(ContentPass(ps, s))
  {
  }

  lemma PassKeepsSane(ps: Parser, skip: bool, ch: char)
    requires Sane(ps)
    ensures Keeps(PassOf(ps, skip, ch))
  {
    hide StartPass, StatusLinePass, TargetPass, VersionPass, FieldsPass, EndingPass, ChunkPass, ContentPass;
    match ps.state
    case Dead =>
    case Start(s) => StartKeepsSane(ps, s, ch);
    case StatusLine(s) => StatusLineKeepsSane(ps, s, ch);
    case Target(s) => TargetKeepsSane(ps, s, ch);
    case Version(s) => VersionKeepsSane(ps, s, ch);
    case Fields(s) => FieldsKeepsSane(ps, s, skip, ch);
    case Ending(s) => EndingKeepsSane(ps, s, ch);
    case Chunk(s) => ChunkKeepsSane(ps, s, ch);
    case Content(s) => ContentKeepsSane(ps, s);
  }
}
