/** The five marks of http_parser_execute: where in the buffer each datum that is not yet delivered begins. */
module Marks {
  import opened Http
  import opened Machine
  import opened UrlChar

  /** header_field_mark, header_value_mark, url_mark, body_mark and status_mark. */
  datatype Marks = Marks(field: Option<nat>, value: Option<nat>, url: Option<nat>, body: Option<nat>, status: Option<nat>)
  {
    function Get(k: Kind): Option<nat> {
      match k
      case Field => field
      case Value => value
      case Url => url
      case Body => body
      case Status => status
    }

    function With(k: Kind, m: Option<nat>): Marks {
      match k
      case Field => this.(field := m)
      case Value => this.(value := m)
      case Url => this.(url := m)
      case Body => this.(body := m)
      case Status => this.(status := m)
    }

    /** MARK: does not move a mark that is set. */
    function Mark(k: Kind, p: nat): Marks {
      if Get(k).None? then With(k, Some(p)) else this
    }
  }

  const NO_MARKS := Marks(None, None, None, None, None)

  /** The marks at the start of a buffer. */
  function InitialMarks(s: State): Marks {
    match s
    case Fields(f) =>
      if f.InField? then NO_MARKS.(field := Some(0))
      else if f.InValue? then NO_MARKS.(value := Some(0))
      else NO_MARKS
    case Target(u) => if u.ReqSpacesBeforeUrl? then NO_MARKS else NO_MARKS.(url := Some(0))
    case StatusLine(r) => if r.ResStatus? then NO_MARKS.(status := Some(0)) else NO_MARKS
    case _ => NO_MARKS
  }

  /** The marks agree with the state: only the datum being collected is marked, at or before p. A body may be
      unmarked while it is collected, because its mark is not restored at the start of a buffer. */
  predicate MarksFit(marks: Marks, s: State, p: nat) {
    match Collecting(s)
    case None => marks == NO_MARKS
    case Some(k) =>
      marks == NO_MARKS.With(k, marks.Get(k)) && (if marks.Get(k).Some? then marks.Get(k).value <= p else k.Body?)
  }

  /** The marked bytes before p. */
  function Marked(marks: Marks, s: State, data: string, p: nat): Option<string>
    requires MarksFit(marks, s, p) && p <= |data|
  {
    match Collecting(s)
    case None => None
    case Some(k) =>
      match marks.Get(k)
      case None => None
      case Some(m) => Some(data[m..p])
  }

  lemma OneMark(k: Kind, m: nat)
    ensures NO_MARKS.Get(k).None? && NO_MARKS.With(k, None) == NO_MARKS
    ensures NO_MARKS.With(k, Some(m)).Get(k) == Some(m)
    ensures NO_MARKS.With(k, Some(m)).With(k, None) == NO_MARKS
  {
  }

  lemma InitialMarksFit(c: Config, data: string)
    ensures MarksFit(InitialMarks(c.ps.state), c.ps.state, 0)
    ensures Begin(c).pend == Marked(InitialMarks(c.ps.state), c.ps.state, data, 0)
  {
  }

  /** An effect suits the states it leads between. */
  predicate Fits(effect: Effect, again: bool, s: State, s': State) {
    match effect
    case Nothing => Collecting(s).None? && Collecting(s') in {None, Some(Kind.Body)}
    case SetMark(k) => Collecting(s).None? && Collecting(s') == Some(k) && !k.Body? && again
    case Byte(k) => Collecting(s) in {None, Some(k)} && Collecting(s') == Some(k) && !again
    case LastByte(k) => Collecting(s) == Some(k) && Collecting(s').None? && again
    case Deliver(k) => Collecting(s) == Some(k) && Collecting(s').None?
    case Empty(k) => Collecting(s).None? && Collecting(s').None?
    case Call(_) => Collecting(s).None? && Collecting(s') in {None, Some(Kind.Body)}
  }

  /** The bytes p..q join the datum being collected. */
  lemma MarkedGrows(k: Kind, marks: Marks, s: State, s': State, data: string, p: nat, q: nat)
    requires p < q <= |data| && MarksFit(marks, s, p)
    requires Collecting(s) in {None, Some(k)} && Collecting(s') == Some(k)
    ensures MarksFit(marks.Mark(k, p), s', q)
    ensures Marked(marks.Mark(k, p), s', data, q) == Some(Held(Marked(marks, s, data, p)) + data[p..q])
  {
    hide Marks.Get, Marks.With, Collecting;
    OneMark(k, p);
    var m := marks.Mark(k, p).Get(k).value;
    assert data[m..p] + data[p..q] == data[m..q];
  }

  lemma MarkedGrowsByAByte(k: Kind, marks: Marks, s: State, s': State, data: string, p: nat)
    requires p < |data| && MarksFit(marks, s, p)
    requires Collecting(s) in {None, Some(k)} && Collecting(s') == Some(k)
    ensures MarksFit(marks.Mark(k, p), s', p + 1)
    ensures Marked(marks.Mark(k, p), s', data, p + 1) == Some(Held(Marked(marks, s, data, p)) + [data[p]])
  {
    hide Marked, MarksFit, Collecting, Marks.Mark;
    MarkedGrows(k, marks, s, s', data, p, p + 1);
    assert data[p..p + 1] == [data[p]];
  }

  /** The states that http_parser_execute handles with loops of its own. */
  predicate Loops(s: State) {
    s == Fields(InField) || s == Fields(InValue) || s == Chunk(ChunkData)
    || s == Content(BodyIdentity) || s == Content(BodyIdentityEof)
  }

  /** A pass that does not fail has an effect that suits the states, and only looks again outside of chunks. */
  predicate Suits(ps: Parser, r: Pass) {
    if r.control.Fail? then r.control.errno != OK && r.control.errno != HEADER_OVERFLOW && r == Error(ps, r.control.errno)
    else
      && Fits(r.effect, r.control.Again?, ps.state, r.ps.state)
      && (r.control.Again? ==> !r.ps.state.Chunk? && !r.reset)
      && (r.control.Exit? ==> Collecting(r.ps.state).None?)
      && r.ps.lenient == ps.lenient
  }

  lemma StatusLineSuits(ps: Parser, s: StatusLineState, ch: char)
    requires ps.state == StatusLine(s)
    ensures Suits(ps, StatusLinePass(ps, s, ch))
  {
  }

  lemma TargetSuits(ps: Parser, s: UrlState, ch: char)
    requires ps.state == Target(s)
    ensures Suits(ps, TargetPass(ps, s, ch))
  {
    assert forall u: UrlState, c :: ParseUrlChar(u, c) != Some(ReqSpacesBeforeUrl);
    hide ParseUrlChar;
  }

  /** What the bytes of a value do to the marks. */
  predicate ValueSuits(ps: Parser, r: Pass) {
    if r.control.Fail? then r.control.errno != OK && r.control.errno != HEADER_OVERFLOW && r == Error(ps, r.control.errno)
    else r.effect == Byte(Kind.Value) && r.control.Next? && r.ps.state == Fields(InValue) && r.ps.lenient == ps.lenient
  }

  lemma FirstValueSuits(ps: Parser, ch: char)
    ensures ValueSuits(ps, FirstValueChar(ps, ch))
  {
    hide FirstValueState;
  }

  lemma ValueCharSuits(ps: Parser, ch: char)
    requires ps.state == Fields(InValue)
    ensures ValueSuits(ps, ValueChar(ps, ch))
  {
    hide ListChar, FinishFlags;
  }

  predicate AtValueByte(s: FieldState) {
    s.DiscardWs? || s.ValueStart? || s.InValue?
  }

  lemma ValueBytesSuit(ps: Parser, s: FieldState, skip: bool, ch: char)
    requires ps.state == Fields(s) && AtValueByte(s)
    ensures Suits(ps, FieldsPass(ps, s, skip, ch))
  {
    hide ValueChar, FirstValueChar;
    FirstValueSuits(ps, ch);
    if s.InValue? { ValueCharSuits(ps, ch); }
  }

  lemma OtherBytesSuit(ps: Parser, s: FieldState, skip: bool, ch: char)
    requires ps.state == Fields(s) && !AtValueByte(s)
    ensures Suits(ps, FieldsPass(ps, s, skip, ch))
  {
    hide FinishFlags, FirstNameChar, NameChar;
  }

  lemma FieldsSuits(ps: Parser, s: FieldState, skip: bool, ch: char)
    requires ps.state == Fields(s)
    ensures Suits(ps, FieldsPass(ps, s, skip, ch))
  {
    hide FieldsPass, Suits, AtValueByte;
    if AtValueByte(s) { ValueBytesSuit(ps, s, skip, ch); } else { OtherBytesSuit(ps, s, skip, ch); }
  }

  lemma EndingSuits(ps: Parser, s: EndingState, ch: char)
    requires ps.state == Ending(s)
    ensures Suits(ps, EndingPass(ps, s, ch))
  {
  }

  lemma ChunkSuits(ps: Parser, s: ChunkState, ch: char)
    requires ps.state == Chunk(s)
    ensures Suits(ps, ChunkPass(ps, s, ch))
  {
  }

  lemma PassSuits(ps: Parser, skip: bool, ch: char)
    ensures Suits(ps, PassOf(ps, skip, ch))
  {
    hide StatusLinePass, TargetPass, FieldsPass, EndingPass, ChunkPass, MethodString, FirstLetter, Redirect;
    match ps.state
    case StatusLine(s) => StatusLineSuits(ps, s, ch);
    case Target(s) => TargetSuits(ps, s, ch);
    case Fields(s) => FieldsSuits(ps, s, skip, ch);
    case Ending(s) => EndingSuits(ps, s, ch);
    case Chunk(s) => ChunkSuits(ps, s, ch);
    case _ =>
  }

  /** Only the last byte of a message body is delivered together with what precedes it. */
  lemma OnlyBodiesEndWithAByte(ps: Parser, skip: bool, ch: char)
    ensures PassOf(ps, skip, ch).effect.LastByte? ==> ps.state == Content(BodyIdentity)
  {
    hide MethodString, FirstLetter, Redirect, ParseUrlChar, NameChar, ListChar, FinishFlags, FirstValueState, FirstNameChar;
  }
}
