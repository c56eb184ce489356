/** http_parser_execute over a whole buffer: an index, five marks, the skip-ahead loops and `goto reexecute`.
    It is proved to make the callbacks, and to leave the parser, that the byte machine does. */
module Execute {
  import opened Characters
  import opened Http
  import opened Machine
  import opened Invariant
  import opened Scan
  import opened Marks
  import opened Budget

  /** All that is left to do from byte p on: the run, and the spending. */
  datatype Goal = Goal(run: RunResult, spend: Spending)

  ghost function Ahead(c: Config, data: string, p: nat): Goal
    requires p < |data|
  {
    Goal(Resume(c, data, p), SpendFrom(c, data, p))
  }

  /** Configuration c stands at byte q inside a field name or header value whose examination began with c0 at
      byte p. */
  ghost predicate Inside(c0: Config, c: Config, marks: Marks, data: string, p: nat, q: nat)
  {
    && p <= q <= |data| && p < |data|
    && Sane(c.ps) && c.ps.state == c0.ps.state && c.ps.lenient == c0.ps.lenient
    && MarksFit(marks, c.ps.state, q)
    && c.calls == c0.calls && c.pend == Marked(marks, c.ps.state, data, q)
    && c.n == (if q < |data| then c0.n + (q - p) else c0.n + (q - p) - 1)
    && c.peak == (if c.n > c0.peak then c.n else c0.peak)
    && Ahead(c0, data, p) == (if q < |data| then Ahead(c, data, q) else Goal(Run(c, data, q), SpendOn(c, data, q)))
  }

  lemma NameStep(c0: Config, c: Config, marks: Marks, data: string, p: nat, q: nat)
    returns (c': Config)
    requires Inside(c0, c, marks, data, p, q) && q < |data|
    requires c.ps.state == Fields(InField) && IsToken(data[q])
    ensures Inside(c0, c', marks, data, p, q + 1) && !c'.skip
    ensures var (h, i) := NameChar(c.ps.hstate, c.ps.index, TokenLower(data[q]));
            c'.ps == c.ps.(hstate := h, index := i)
  {
    hide PassOf, After, Marked, NameChar, NameState, ValueState;
    assert Collecting(c.ps.state) == Some(Kind.Field) && marks.Mark(Kind.Field, q) == marks;
    NameByte(c, data[q]);
    NextLeads(c, data, q);
    NoJump(c, data, q);
    SpendLoop(c, data, q);
    MarkedGrowsByAByte(Kind.Field, marks, c.ps.state, c.ps.state, data, q);
    NameCharKeeps(c.ps.hstate, c.ps.index, TokenLower(data[q]));
    c' := Advance(After(c, data[q]), data, q + 1);
  }

  lemma NoJump(c: Config, data: string, q: nat)
    requires !InGeneralValue(c.ps)
    ensures !JumpsOut(c, data, q)
  {
  }

  lemma ValueStep(c0: Config, c: Config, marks: Marks, data: string, p: nat, q: nat)
    returns (c': Config)
    requires Inside(c0, c, marks, data, p, q) && q < |data|
    requires c.ps.state == Fields(InValue) && !c.ps.hstate.General? && !c.skip && !IsEol(data[q])
    requires c.ps.lenient || IsHeaderChar(data[q])
    ensures
      var r := ValueChar(c.ps, data[q]);
      if r.control.Next? then
        Inside(c0, c', marks, data, p, q + 1) && !c'.skip && c'.ps == r.ps
      else
        && r.control == Fail(INVALID_CONTENT_LENGTH)
        && Resume(c0, data, p).outcome == Failed(INVALID_CONTENT_LENGTH) && Resume(c0, data, p).at == q
        && Resume(c0, data, p).c.calls == c0.calls && SpendFrom(c0, data, p) == Within(0)
  {
    hide PassOf, After, Marked, NameState, ValueState, ValueChar, SpendFrom;
    NoJump(c, data, q);
    assert Collecting(c.ps.state) == Some(Kind.Value) && marks.Mark(Kind.Value, q) == marks;
    ValueByte(c, data[q]);
    var r := ValueChar(c.ps, data[q]);
    c' := Advance(After(c, data[q]), data, q + 1);
    if r.control.Next? {
      NextLeads(c, data, q);
      SpendLoop(c, data, q);
      ValueCharKeepsSane(c.ps, data[q]);
      MarkedGrowsByAByte(Kind.Value, marks, c.ps.state, c.ps.state, data, q);
    } else {
      StopLeads(c, data, q);
      SpendStop(c, data, q);
    }
  }

  lemma JumpStep(c0: Config, c: Config, marks: Marks, data: string, p: nat, q: nat, r: nat)
    returns (c': Config)
    requires Inside(c0, c, marks, data, p, q) && q < r <= |data|
    requires InGeneralValue(c.ps) && (c.ps.lenient || c.skip || IsHeaderChar(data[q]))
    requires !JumpsOut(c, data, q) && forall i :: q <= i < r ==> !IsEol(data[i])
    ensures Inside(c0, c', marks, data, p, r) && c'.ps == c.ps
  {
    hide PassOf, After, Marked, NameState, ValueState, SpendFrom, JumpsOut;
    assert Collecting(c.ps.state) == Some(Kind.Value) && marks.Mark(Kind.Value, q) == marks;
    JumpLeads(c, data, q, r - q);
    SpendJump(c, data, q, r - q);
    MarkedGrows(Kind.Value, marks, c.ps.state, c.ps.state, data, q, r);
    c' := Advance(Jump(c, r - q, data[q..r]), data, r);
  }

  /** A jump to the end of the buffer over a header value that is too long exceeds the budget. */
  lemma JumpTooFar(c: Config, data: string, q: nat)
    requires q < |data| && JumpsOut(c, data, q) && (c.ps.lenient || IsHeaderChar(data[q]))
    ensures SpendFrom(c, data, q) == Over(|data|, c.calls)
  {
    hide PassOf, After;
    GeneralByte(c, data[q]);
    assert Passes(c, data[q]) == (After(c, data[q]), Control.Next);
  }

  /** Part of a body fills the buffer. */
  lemma BodyPartTaken(c: Config, marks: Marks, data: string, p: nat)
    requires p < |data| && Consumes(c.ps.state) && |data| - p < c.ps.length && !c.skip && c.n <= c.peak && c.n <= HTTP_MAX_HEADER_SIZE
    requires MarksFit(marks, c.ps.state, p) && c.pend == Marked(marks, c.ps.state, data, p)
    ensures
      var marks' := marks.Mark(Kind.Body, p);
      var c' := Plain(c, |data| - p, data[p..]);
      && MarksFit(marks', c.ps.state, |data|) && c'.pend == Marked(marks', c.ps.state, data, |data|)
      && Ahead(c, data, p) == Goal(Run(c', data, |data|), Within(0))
  {
    hide PassOf, Marked, Run, Resume, Passes, After, SpendFrom;
    MarkedGrows(Kind.Body, marks, c.ps.state, c.ps.state, data, p, |data|);
    assert data[p..] == data[p..|data|];
    BodyLeads(c, data, p, |data| - p);
    SpendBody(c, data, p, |data| - p);
  }

  /** The rest of a chunk is in the buffer. */
  lemma ChunkTaken(c: Config, marks: Marks, data: string, p: nat, q: nat)
    requires p <= q < |data| && c.ps.state == Chunk(ChunkData) && q - p + 1 == c.ps.length && !c.skip && c.n <= c.peak && c.n <= HTTP_MAX_HEADER_SIZE
    requires MarksFit(marks, c.ps.state, p) && c.pend == Marked(marks, c.ps.state, data, p)
    ensures
      var marks' := marks.Mark(Kind.Body, p);
      var c' := BodyDone(c, data[p..q + 1]);
      && MarksFit(marks', c'.ps.state, q + 1) && c'.pend == Marked(marks', c'.ps.state, data, q + 1)
      && Ahead(c, data, p) == Goal(Run(c', data, q + 1), Spend(c', data, q + 1))
      && (q + 1 == |data| ==> SpendFrom(c, data, p) == Within(0))
  {
    hide PassOf, Marked, Run, Resume, Passes, After, SpendFrom, Spend;
    MarkedGrows(Kind.Body, marks, c.ps.state, BodyDone(c, data[p..q + 1]).ps.state, data, p, q + 1);
    BodyEndLeads(c, data, p, q);
    SpendBodyEnd(c, data, p, q);
  }

  /** The rest of a message body is in the buffer. */
  lemma ContentTaken(c: Config, marks: Marks, data: string, p: nat, q: nat)
    requires p <= q < |data| && c.ps.state == Content(BodyIdentity) && q - p + 1 == c.ps.length && !c.skip && c.n <= c.peak && c.n <= HTTP_MAX_HEADER_SIZE
    requires MarksFit(marks, c.ps.state, p) && c.pend == Marked(marks, c.ps.state, data, p)
    ensures
      var m := marks.Mark(Kind.Body, p).Get(Kind.Body);
      var c' := BodyDone(c, data[p..q + 1]);
      && m.Some? && m.value <= q && c'.calls == c.calls + [Data(Kind.Body, data[m.value..q + 1])]
      && marks.Mark(Kind.Body, p).With(Kind.Body, None) == NO_MARKS
      && Ahead(c, data, p) == Ahead(c', data, q)
  {
    hide PassOf, Run, Resume, Passes, After, SpendFrom, Spend;
    MarkedGrows(Kind.Body, marks, c.ps.state, c.ps.state, data, p, q + 1);
    BodyEndLeads(c, data, p, q);
    SpendBodyEnd(c, data, p, q);
  }

  lemma LoopEndsFit(again: bool)
    ensures Fits(Deliver(Kind.Field), again, Fields(InField), Fields(DiscardWs))
    ensures Fits(Deliver(Kind.Value), again, Fields(InValue), Fields(ValueAlmostDone))
  {
  }

  /** A byte is first counted, then looked at. */
  lemma StartsByte(c: Config, data: string, p: nat)
    requires p < |data|
    ensures Run(c, data, p) == Resume(Count(c), data, p)
    ensures Spend(c, data, p)
         == if ParsingHeader(c.ps.state) && Count(c).n > HTTP_MAX_HEADER_SIZE then Over(p, c.calls)
            else SpendFrom(Count(c), data, p)
    ensures Count(c) == c.(n := Count(c).n, peak := Count(c).peak)
    ensures Count(c).n == if ParsingHeader(c.ps.state) then c.n + 1 else c.n
    ensures c.ps.state == Chunk(ChunkSizeStart) ==> ParsingHeader(c.ps.state)
    ensures Count(c).peak == if Count(c).n > c.peak then Count(c).n else c.peak
  {
    hide Resume, SpendFrom;
  }

  /** At the end of a buffer at most one mark is set, and delivering all five delivers what is marked. */
  lemma AtMostOneMark(c: Config, marks: Marks, data: string)
    requires MarksFit(marks, c.ps.state, |data|) && c.pend == Marked(marks, c.ps.state, data, |data|)
    ensures (if marks.field.Some? then 1 else 0) + (if marks.value.Some? then 1 else 0) + (if marks.url.Some? then 1 else 0)
            + (if marks.body.Some? then 1 else 0) + (if marks.status.Some? then 1 else 0) <= 1
    ensures forall k :: marks.Get(k).Some? ==> marks.Get(k).value <= |data|
    ensures
      End(c).calls == c.calls + Delivery(Kind.Field, marks.field, data) + Delivery(Kind.Value, marks.value, data)
                      + Delivery(Kind.Url, marks.url, data) + Delivery(Kind.Body, marks.body, data)
                      + Delivery(Kind.Status, marks.status, data)
  {
    var k := Collecting(c.ps.state);
    hide Collecting;
    match k
    case None =>
    case Some(Field) =>
    case Some(Value) =>
    case Some(Url) =>
    case Some(Body) =>
    case Some(Status) =>
  }

  /** The callback of a datum marked at the end of a buffer. */
  function Delivery(k: Kind, m: Option<nat>, data: string): seq<Event> {
    if m.Some? && m.value <= |data| then [Data(k, data[m.value..|data|])] else []
  }

  lemma RunAtEnd(c: Config, data: string)
    ensures Run(c, data, |data|) == RunResult(End(c), |data|, Completed)
    ensures End(c) == c.(calls := End(c).calls, pend := End(c).pend)
  {
  }

  /** How a trip through the switch ends: p++ and on, reexecute, or return. */
  datatype Verdict = Continue | Reexecute | Return

  class HttpParser {
    var rec: Parser
    var nread: nat
    var errno: Errno
    var calls: seq<Event>      // the callbacks made so far

    ghost predicate Valid()
      reads this
    {
      && Sane(rec)
      && (errno == OK ==> nread <= HTTP_MAX_HEADER_SIZE && (rec.state == Chunk(ChunkSizeStart) ==> nread == 0))
    }

    constructor (t: ParserType)
      ensures Valid() && rec == Init(t) && errno == OK && calls == [] && nread == 0
    {
      rec, nread, errno, calls := Init(t), 0, OK, [];
    }

    /** The configuration of the byte machine in which a call on a buffer begins. */
    ghost function Now(): Config
      reads this
    {
      Config(rec, false, nread, nread, calls, None)
    }

    /** CALLBACK_DATA: delivers the datum if its mark is set, and clears the mark. */
    method DeliverData(k: Kind, marks: Marks, data: string, p: nat) returns (marks': Marks)
      requires marks.Get(k).Some? ==> marks.Get(k).value <= p <= |data|
      modifies this`calls
      ensures marks' == marks.With(k, None)
      ensures calls == old(calls) + if marks.Get(k).Some? then [Data(k, data[marks.Get(k).value..p])] else []
    {
      marks' := marks.With(k, None);
      if marks.Get(k).Some? {
        calls := calls + [Data(k, data[marks.Get(k).value..p])];
      }
    }

    /** The marks and the callback of one trip through the switch. */
    method Perform(effect: Effect, again: bool, marks: Marks, data: string, p: nat, ghost s: State, ghost s': State)
      returns (marks': Marks)
      requires p < |data| && MarksFit(marks, s, p) && Fits(effect, again, s, s') && !effect.LastByte?
      modifies this`calls
      ensures MarksFit(marks', s', if again then p else p + 1)
      ensures calls == old(calls) + Calls(Marked(marks, s, data, p), effect, data[p])
      ensures Marked(marks', s', data, if again then p else p + 1) == Pend(Marked(marks, s, data, p), effect, data[p])
    {
      hide Marks.Get, Marks.With, Collecting;
      OneMark(Kind.Body, p);
      marks' := marks;
      match effect
      case Nothing =>
      case SetMark(k) =>
        OneMark(k, p);
        marks' := marks.Mark(k, p);
        assert data[p..p] == "";
      case Byte(k) =>
        MarkedGrowsByAByte(k, marks, s, s', data, p);
        marks' := marks.Mark(k, p);
      case Deliver(k) =>
        if marks.Get(k).Some? { OneMark(k, marks.Get(k).value); } else { OneMark(k, p); }
        marks' := DeliverData(k, marks, data, p);
      case Empty(k) =>
        OneMark(k, p);
        assert data[p..p] == "";
        marks' := marks.Mark(k, p);
        marks' := DeliverData(k, marks', data, p);
      case Call(e) =>
        calls := calls + [e];
    }

    /** The parser stands where configuration c stands, with byte p next. */
    ghost predicate Stands(c: Config, marks: Marks, data: string, p: nat)
      reads this
    {
      && errno == OK
      && rec == c.ps && Sane(rec)
      && p <= |data| && MarksFit(marks, rec.state, p)
      && calls == c.calls && c.pend == Marked(marks, rec.state, data, p)
      && c.n <= c.peak && c.n <= nread <= HTTP_MAX_HEADER_SIZE
    }

    ghost predicate At(c: Config, marks: Marks, data: string, p: nat)
      reads this
    {
      Stands(c, marks, data, p) && nread == c.n
    }

    /** Byte p has been consumed and the parser stands where c stands. */
    ghost predicate Consumed(c: Config, marks: Marks, data: string, p: nat, goal: Goal)
      reads this
    {
      && p < |data|
      && Stands(c, marks, data, p + 1)
      && (p + 1 < |data| ==> !c.skip && nread == c.n)
      && (rec.state == Chunk(ChunkSizeStart) ==> nread == 0)
      && goal.run == Run(c, data, p + 1)
      && goal.spend == if p + 1 < |data| then Spend(c, data, p + 1) else Within(nread - c.n)
    }

    /** Byte p is to be looked at again. */
    ghost predicate Repeated(c: Config, marks: Marks, data: string, p: nat, goal: Goal)
      reads this
    {
      && p < |data|
      && At(c, marks, data, p)
      && !c.skip && !rec.state.Chunk?
      && Ahead(c, data, p) == goal
    }

    /** The run has ended with byte p because of an upgrade. */
    ghost predicate Upgraded(c: Config, data: string, p: nat, goal: Goal)
      reads this
    {
      && p < |data|
      && At(c, NO_MARKS, data, p + 1)
      && (rec.state == Chunk(ChunkSizeStart) ==> nread == 0)
      && goal == Goal(RunResult(c, p + 1, Exited), Within(0))
    }

    /** What an error return means: the header budget is exceeded here, or the machine fails at the same byte with the
        same error; with the same callbacks in either case. */
    ghost predicate Wrong(goal: Goal, at: nat)
      reads this
    {
      && errno != OK && Sane(rec)
      && if goal.spend.Over? then errno == HEADER_OVERFLOW && goal.spend == Over(at, calls)
         else goal.run.outcome == Failed(errno) && goal.run.at == at && goal.run.c.calls == calls
    }

    /** The trip through the switch for a byte that no loop consumes. */
    method Switch(data: string, p: nat, marks: Marks, ghost c: Config)
      returns (verdict: Verdict, marks': Marks, ghost c': Config)
      requires p < |data| && At(c, marks, data, p) && !c.skip && !Loops(rec.state)
      requires rec.state == Chunk(ChunkSizeStart) ==> nread == 1
      modifies this
      ensures verdict.Continue? ==> Consumed(c', marks', data, p, Ahead(c, data, p))
      ensures verdict.Reexecute? ==>
        Repeated(c', marks', data, p, Ahead(c, data, p)) && Rank(rec.state) < Rank(old(rec.state))
      ensures verdict.Return? && errno == OK ==> Upgraded(c', data, p, Ahead(c, data, p))
      ensures errno != OK ==> verdict.Return? && Wrong(Ahead(c, data, p), p)
    {
      hide PassOf, Marks.Get, Marks.With, Marked, Collecting, Run, Resume, Passes, SpendFrom, Spend;
      var r := PassOf(rec, false, data[p]);
      PassKeepsSane(rec, false, data[p]);
      PassSuits(rec, false, data[p]);
      OnlyBodiesEndWithAByte(rec, false, data[p]);
      c' := After(c, data[p]);
      marks' := marks;
      match r.control {
        case Fail(e) =>
          errno := e;
          verdict := Return;
          StopLeads(c, data, p);
          SpendStop(c, data, p);
          return;
        case Again =>
          AgainLeads(c, data, p);
          SpendAgain(c, data, p);
          verdict := Reexecute;
        case Next =>
          NextLeads(c, data, p);
          SpendNext(c, data, p);
          verdict := Continue;
        case Exit =>
          StopLeads(c, data, p);
          SpendStop(c, data, p);
          verdict := Return;
      }
      marks' := Perform(r.effect, r.control.Again?, marks, data, p, rec.state, r.ps.state);
      rec := r.ps;
      if r.reset {
        nread := 0;
      }
    }

    /** COUNT_HEADER_SIZE: nread is 32 bits wide, which a buffer shorter than 2^31 bytes cannot overflow. */
    method CountHeaderSize(size: nat) returns (within: bool)
      requires nread <= HTTP_MAX_HEADER_SIZE && size < 0x8000_0000
      modifies this`nread, this`errno
      ensures nread == old(nread) + size
      ensures within == (nread <= HTTP_MAX_HEADER_SIZE)
      ensures errno == if within then old(errno) else HEADER_OVERFLOW
    {
      assert nread + size < 0x1_0000_0000;
      nread := nread + size;
      within := nread <= HTTP_MAX_HEADER_SIZE;
      if !within {
        errno := HEADER_OVERFLOW;
      }
    }

    /** The loop over the characters of a field name. */
    method FieldLoop(data: string, p: nat, marks: Marks, ghost c: Config)
      returns (q: nat, ghost c': Config)
      requires p < |data| && rec == c.ps && !c.skip && rec.state == Fields(InField) && Inside(c, c, marks, data, p, p)
      modifies this`rec
      ensures rec == c'.ps && Inside(c, c', marks, data, p, q) && !c'.skip
      ensures q < |data| ==> !IsToken(data[q])
    {
      hide Marks.Get, Marks.With, Marked, NameChar, NameState, ValueState;
      q, c' := p, c;
      while q < |data| && IsToken(data[q])
        invariant rec == c'.ps && Inside(c, c', marks, data, p, q) && !c'.skip
      {
        c' := NameStep(c, c', marks, data, p, q);
        var (h, i) := NameChar(rec.hstate, rec.index, TokenLower(data[q]));
        rec := rec.(hstate := h, index := i);
        q := q + 1;
      }
    }

    /** The switch branch of s_header_field. */
    method ScanField(data: string, p: nat, marks: Marks, ghost c: Config)
      returns (verdict: Verdict, q: nat, marks': Marks, ghost c': Config)
      requires |data| < 0x8000_0000
      requires At(c, marks, data, p) && !c.skip && rec.state == Fields(InField) && p < |data|
      modifies this
      ensures p <= q
      ensures verdict.Continue? ==> Consumed(c', marks', data, q, Ahead(c, data, p))
      ensures !verdict.Continue? ==> verdict.Return? && Wrong(Ahead(c, data, p), q)
    {
      hide Marks.Get, Marks.With, Marked, Collecting, Sane, Run, Resume, SpendFrom, MarksFit;
      marks' := marks;
      q, c' := FieldLoop(data, p, marks, c);
      verdict := Return;
      ghost var goal := Ahead(c, data, p);
      var within := CountHeaderSize(q - p);
      if q == |data| {
        if within {
          q := q - 1;
          verdict := Continue;
        }
      } else if !within {
        NameExceeds(c', data, q);
      } else {
        verdict, marks', c' := EndField(data, q, marks, c', goal);
      }
    }

    /** The byte after a field name. */
    method EndField(data: string, q: nat, marks: Marks, ghost c: Config, ghost goal: Goal)
      returns (verdict: Verdict, marks': Marks, ghost c': Config)
      requires q < |data| && At(c, marks, data, q) && !c.skip && rec.state == Fields(InField) && !IsToken(data[q])
      requires goal == Ahead(c, data, q)
      modifies this
      ensures verdict.Continue? ==> Consumed(c', marks', data, q, goal)
      ensures !verdict.Continue? ==> verdict.Return? && Wrong(goal, q)
    {
      hide PassOf, Marks.Get, Marks.With, Marked, Collecting, NameState, ValueState, Fits, Run, Resume, SpendFrom, Spend,
           Passes, MarksFit, Calls, Pend, IsToken;
      marks', c', verdict := marks, c, Return;
      NameEnd(c, data[q]);
      if data[q] == ':' {
        NextLeads(c, data, q);
        SpendNext(c, data, q);
        LoopEndsFit(false);
        marks' := Perform(Deliver(Kind.Field), false, marks, data, q, rec.state, Fields(DiscardWs));
        rec := rec.(state := Fields(DiscardWs));
        c' := After(c, ':');
        verdict := Continue;
      } else {
        errno := INVALID_HEADER_TOKEN;
        StopLeads(c, data, q);
        SpendStop(c, data, q);
      }
    }

    /** memchr over data[lo..hi]; hi stands for NULL. */
    static function MemChr(data: string, c: char, lo: nat, hi: nat): (r: nat)
      requires lo <= hi <= |data|
      ensures lo <= r <= hi
      ensures forall i :: lo <= i < r ==> data[i] != c
      ensures r < hi ==> data[r] == c
      decreases hi - lo
    {
      if lo == hi || data[lo] == c then lo else MemChr(data, c, lo + 1, hi)
    }

    /** Where the value loop jumps from byte p: the next CR or LF if the first HTTP_MAX_HEADER_SIZE bytes hold
        one, and otherwise the end of the buffer. */
    static method JumpTarget(data: string, p: nat) returns (q: nat)
      requires p < |data| && !IsEol(data[p])
      ensures p < q <= |data|
      ensures
        if p + HTTP_MAX_HEADER_SIZE < |data| && forall i :: p <= i < p + HTTP_MAX_HEADER_SIZE ==> !IsEol(data[i]) then q == |data|
        else (q < |data| ==> IsEol(data[q])) && forall i :: p <= i < q ==> !IsEol(data[i])
    {
      var limit := if |data| - p < HTTP_MAX_HEADER_SIZE then |data| - p else HTTP_MAX_HEADER_SIZE;
      var cr := MemChr(data, CR, p, p + limit);
      var lf := MemChr(data, LF, p, p + limit);
      if cr < p + limit {
        q := if lf < p + limit && cr >= lf then lf else cr;
      } else if lf < p + limit {
        q := lf;
      } else {
        q := |data|;
      }
    }

    /** The loop over the characters of a header value. It stops at CR or LF, at the end of the buffer, or in
        error; `doomed` says that it jumped to the end of the buffer over an overlong header. */
    method ValueLoop(data: string, p: nat, marks: Marks, ghost c: Config)
      returns (q: nat, ghost c': Config, ghost doomed: bool)
      requires errno == OK && rec == c.ps && !c.skip && rec.state == Fields(InValue) && Inside(c, c, marks, data, p, p)
      modifies this`rec, this`errno
      ensures p <= q <= |data| && Sane(rec) && (q < |data| && errno == OK ==> IsEol(data[q]))
      ensures errno != OK ==>
        && Resume(c, data, p).outcome == Failed(errno) && Resume(c, data, p).at == q
        && Resume(c, data, p).c.calls == c.calls && SpendFrom(c, data, p) == Within(0)
      ensures errno == OK && !doomed ==> rec == c'.ps && Inside(c, c', marks, data, p, q)
      ensures errno == OK && doomed ==> q == |data| && q - p > HTTP_MAX_HEADER_SIZE && SpendFrom(c, data, p) == Over(q, c.calls)
    {
      hide Marks.Get, Marks.With, Marked, NameState, ValueState, ValueChar, PassOf, After, SpendFrom, SpendOn;
      q, c', doomed := p, c, false;
      while q < |data| && !IsEol(data[q])
        invariant p <= q <= |data| && errno == OK && Sane(rec)
        invariant !doomed ==> rec == c'.ps && Inside(c, c', marks, data, p, q)
        invariant !doomed && q < |data| && !IsEol(data[q]) ==> !c'.skip
        invariant doomed ==> q == |data| && q - p > HTTP_MAX_HEADER_SIZE && SpendFrom(c, data, p) == Over(q, c.calls)
      {
        if !rec.lenient && !IsHeaderChar(data[q]) {
          ValueEnd(c', data[q]);
          errno := INVALID_HEADER_TOKEN;
          StopLeads(c', data, q);
          SpendStop(c', data, q);
          return;
        }
        if rec.hstate.General? {
          var r := JumpTarget(data, q);
          doomed := JumpsOut(c', data, q);
          if doomed {
            JumpTooFar(c', data, q);
          } else {
            c' := JumpStep(c, c', marks, data, p, q, r);
          }
          q := r;
        } else {
          c' := ValueStep(c, c', marks, data, p, q);
          var r := ValueChar(rec, data[q]);
          if r.control.Fail? {
            errno := r.control.errno;
            return;
          }
          rec := r.ps;
          q := q + 1;
        }
      }
    }

    /** The switch branch of s_header_value. A CR delivers the value before the bytes are counted, an LF after. */
    method ScanValue(data: string, p: nat, marks: Marks, ghost c: Config)
      returns (verdict: Verdict, q: nat, marks': Marks, ghost c': Config)
      requires |data| < 0x8000_0000
      requires At(c, marks, data, p) && !c.skip && rec.state == Fields(InValue) && p < |data|
      modifies this
      ensures p <= q
      ensures verdict.Continue? ==> Consumed(c', marks', data, q, Ahead(c, data, p))
      ensures verdict.Reexecute? ==> Repeated(c', marks', data, q, Ahead(c, data, p)) && rec.state == Fields(ValueAlmostDone)
      ensures verdict.Return? ==> Wrong(Ahead(c, data, p), q)
    {
      hide Marks.Get, Marks.With, Marked, Collecting, Sane, Run, Resume, SpendFrom, MarksFit;
      marks', verdict := marks, Return;
      ghost var doomed;
      q, c', doomed := ValueLoop(data, p, marks, c);
      if errno != OK {
        return;
      }
      ghost var goal := Ahead(c, data, p);
      if q < |data| && data[q] == CR {
        verdict, marks', c' := EndValueAtCr(data, q, q - p, marks, c', goal);
        return;
      }
      var within := CountHeaderSize(q - p);
      if q == |data| {
        if within {
          q := q - 1;
          verdict := Continue;
        }
      } else if !within {
        ValueExceeds(c', data, q);
      } else {
        marks', c' := EndValueAtLf(data, q, marks, c', goal);
        verdict := Reexecute;
      }
    }

    method EndValueAtCr(data: string, q: nat, size: nat, marks: Marks, ghost c: Config, ghost goal: Goal)
      returns (verdict: Verdict, marks': Marks, ghost c': Config)
      requires q < |data| && Stands(c.(n := nread, peak := nread + c.peak), marks, data, q) && c.n <= c.peak && data[q] == CR
      requires nread + size == c.n && size < 0x8000_0000 && rec.state == Fields(InValue) && goal == Ahead(c, data, q)
      modifies this
      ensures verdict.Continue? ==> Consumed(c', marks', data, q, goal)
      ensures !verdict.Continue? ==> verdict.Return? && Wrong(goal, q)
    {
      hide PassOf, Marks.Get, Marks.With, Marked, Collecting, NameState, ValueState, Fits, Run, Resume, SpendFrom, Spend,
           Passes, MarksFit, Calls, Pend;
      verdict := Return;
      ValueEnd(c, CR);
      LoopEndsFit(false);
      NextLeads(c, data, q);
      marks' := Perform(Deliver(Kind.Value), false, marks, data, q, rec.state, Fields(ValueAlmostDone));
      rec := rec.(state := Fields(ValueAlmostDone));
      c' := After(c, CR);
      var within := CountHeaderSize(size);
      if within {
        SpendNext(c, data, q);
        verdict := Continue;
      } else {
        ValueExceeds(c, data, q);
      }
    }

    method EndValueAtLf(data: string, q: nat, marks: Marks, ghost c: Config, ghost goal: Goal)
      returns (marks': Marks, ghost c': Config)
      requires q < |data| && At(c, marks, data, q) && data[q] == LF && rec.state == Fields(InValue) && goal == Ahead(c, data, q)
      modifies this
      ensures Repeated(c', marks', data, q, goal) && rec.state == Fields(ValueAlmostDone)
    {
      hide PassOf, Marks.Get, Marks.With, Marked, Collecting, NameState, ValueState, Fits, Run, Resume, SpendFrom, Spend,
           Passes, MarksFit, Calls, Pend;
      ValueEnd(c, LF);
      LoopEndsFit(true);
      AgainLeads(c, data, q);
      SpendAgain(c, data, q);
      marks' := Perform(Deliver(Kind.Value), true, marks, data, q, rec.state, Fields(ValueAlmostDone));
      rec := rec.(state := Fields(ValueAlmostDone));
      c' := After(c, LF);
    }

    /** The switch branch of s_chunk_data: as much of the chunk as the buffer holds. */
    method TakeChunk(data: string, p: nat, marks: Marks, ghost c: Config)
      returns (q: nat, marks': Marks, ghost c': Config)
      requires p < |data| && At(c, marks, data, p) && !c.skip && rec.state == Chunk(ChunkData)
      modifies this`rec
      ensures p <= q
      ensures Consumed(c', marks', data, q, Ahead(c, data, p))
    {
      hide PassOf, Marks.Get, Marks.With, Marks.Mark, Run, Resume, Passes, After, Marked, MarksFit, SpendFrom, Spend;
      marks' := marks.Mark(Kind.Body, p);
      if rec.length > |data| - p {
        BodyPartTaken(c, marks, data, p);
        c' := Plain(c, |data| - p, data[p..]);
        rec := rec.(length := rec.length - (|data| - p));
        q := |data| - 1;
      } else {
        q := p + rec.length - 1;
        ChunkTaken(c, marks, data, p, q);
        c' := BodyDone(c, data[p..q + 1]);
        rec := rec.(length := 0, state := Chunk(ChunkDataAlmostDone));
      }
    }

    /** The switch branch of s_body_identity: as much of the body as the buffer holds. */
    method TakeContent(data: string, p: nat, marks: Marks, ghost c: Config)
      returns (verdict: Verdict, q: nat, marks': Marks, ghost c': Config)
      requires p < |data| && At(c, marks, data, p) && !c.skip && rec.state == Content(BodyIdentity)
      modifies this`rec, this`calls
      ensures p <= q
      ensures verdict.Continue? ==> Consumed(c', marks', data, q, Ahead(c, data, p))
      ensures !verdict.Continue? ==>
        verdict.Reexecute? && Repeated(c', marks', data, q, Ahead(c, data, p)) && rec.state == Content(MessageDone)
    {
      hide PassOf, Marks.Get, Marks.With, Marks.Mark, Run, Resume, Passes, After, SpendFrom, Spend;
      marks' := marks.Mark(Kind.Body, p);
      if rec.length > |data| - p {
        BodyPartTaken(c, marks, data, p);
        c' := Plain(c, |data| - p, data[p..]);
        rec := rec.(length := rec.length - (|data| - p));
        q := |data| - 1;
        verdict := Continue;
      } else {
        q := p + rec.length - 1;
        ContentTaken(c, marks, data, p, q);
        c' := BodyDone(c, data[p..q + 1]);
        rec := rec.(length := 0, state := Content(MessageDone));
        // the last byte is delivered now and looked at again for the message-complete callback
        marks' := DeliverData(Kind.Body, marks', data, q + 1);
        verdict := Reexecute;
      }
    }

    /** The switch branch of s_body_identity_eof: the whole rest of the buffer. */
    method TakeToEof(data: string, p: nat, marks: Marks, ghost c: Config)
      returns (q: nat, marks': Marks, ghost c': Config)
      requires p < |data| && At(c, marks, data, p) && !c.skip && rec.state == Content(BodyIdentityEof)
      ensures p <= q
      ensures Consumed(c', marks', data, q, Ahead(c, data, p))
    {
      hide PassOf, Marks.Get, Marks.With, Marked, Run, Resume, Passes, After, SpendFrom, Spend;
      marks' := marks.Mark(Kind.Body, p);
      q := |data| - 1;
      MarkedGrows(Kind.Body, marks, rec.state, rec.state, data, p, q + 1);
      EofLeads(c, data, p, |data| - p);
      SpendEof(c, data, p, |data| - p);
      c' := c.(pend := Some(Held(c.pend) + data[p..q + 1]));
    }

    /** The callbacks for the marks left over at the end of the buffer. */
    method DeliverRest(marks: Marks, data: string, ghost c: Config)
      requires Stands(c, marks, data, |data|)
      modifies this`calls
      ensures calls == End(c).calls
    {
      hide Marked, MarksFit, End, Sane;
      AtMostOneMark(c, marks, data);
      assert data[..|data|] == data;
      var rest := DeliverData(Kind.Field, marks, data, |data|);
      rest := DeliverData(Kind.Value, rest, data, |data|);
      rest := DeliverData(Kind.Url, rest, data, |data|);
      rest := DeliverData(Kind.Body, rest, data, |data|);
      rest := DeliverData(Kind.Status, rest, data, |data|);
    }

    /** A buffer of no bytes. */
    method AtEof() returns (ret: nat)
      requires errno == OK
      modifies this`errno, this`calls
      ensures rec.state == Content(BodyIdentityEof) ==> calls == old(calls) + [MessageComplete] && ret == 0 && errno == OK
      ensures rec.state in {Dead, Start(StartReqOrRes), Start(StartRes), Start(StartReq)} ==> calls == old(calls) && ret == 0 && errno == OK
      ensures rec.state !in {Content(BodyIdentityEof), Dead, Start(StartReqOrRes), Start(StartRes), Start(StartReq)} ==>
        calls == old(calls) && ret == 1 && errno == INVALID_EOF_STATE
      ensures Called(calls, ret, errno) == EofCall(old(Now()))
    {
      if rec.state == Content(BodyIdentityEof) {
        calls := calls + [MessageComplete];
        ret := 0;
      } else if rec.state in {Dead, Start(StartReqOrRes), Start(StartRes), Start(StartReq)} {
        ret := 0;
      } else {
        errno := INVALID_EOF_STATE;
        ret := 1;
      }
    }

    /** The trips through the switch for one byte, or for the stretch of bytes a loop consumes. */
    method ConsumeByte(data: string, p: nat, marks: Marks, ghost c: Config)
      returns (verdict: Verdict, q: nat, marks': Marks, ghost c': Config)
      requires |data| < 0x8000_0000
      requires p < |data| && At(c, marks, data, p) && !c.skip
      requires rec.state == Chunk(ChunkSizeStart) ==> nread == 1
      modifies this
      ensures verdict.Continue? ==> p <= q && Consumed(c', marks', data, q, Ahead(c, data, p))
      ensures verdict.Return? && errno == OK ==> Upgraded(c', data, q, Ahead(c, data, p))
      ensures errno != OK ==> verdict.Return? && Wrong(Ahead(c, data, p), q)
      ensures !verdict.Reexecute?
    {
      hide PassOf, Run, Resume, Passes, Marked, MarksFit, SpendFrom, Spend;
      q, marks', c' := p, marks, c;
      ghost var goal := Ahead(c, data, p);
      verdict := Reexecute;
      while verdict.Reexecute?
        invariant p <= q
        invariant verdict.Reexecute? ==>
          && q < |data| && At(c', marks', data, q) && !c'.skip && Ahead(c', data, q) == goal
          && (rec.state == Chunk(ChunkSizeStart) ==> nread == 1)
        invariant verdict.Continue? ==> Consumed(c', marks', data, q, goal)
        invariant verdict.Return? && errno == OK ==> Upgraded(c', data, q, goal)
        invariant errno != OK ==> verdict.Return? && Wrong(goal, q)
        decreases verdict.Reexecute?, Rank(rec.state)
      {
        if rec.state == Fields(InField) {
          verdict, q, marks', c' := ScanField(data, q, marks', c');
        } else if rec.state == Fields(InValue) {
          verdict, q, marks', c' := ScanValue(data, q, marks', c');
        } else if rec.state == Chunk(ChunkData) {
          q, marks', c' := TakeChunk(data, q, marks', c');
          verdict := Continue;
        } else if rec.state == Content(BodyIdentity) {
          verdict, q, marks', c' := TakeContent(data, q, marks', c');
        } else if rec.state == Content(BodyIdentityEof) {
          q, marks', c' := TakeToEof(data, q, marks', c');
          verdict := Continue;
        } else {
          verdict, marks', c' := Switch(data, q, marks', c');
        }
      }
    }

    /** The loop over the bytes of a buffer. */
    method ConsumeBuffer(data: string) returns (ret: nat)
      requires Valid() && errno == OK && data != "" && |data| < 0x8000_0000
      modifies this
      ensures Valid() && Did(old(Now()), data, ret)
    {
      hide PassOf, Run, Resume, Passes, Marked, MarksFit, InitialMarks, Sane, Count, ParsingHeader, End, Spend, SpendFrom;
      ghost var c := Begin(Now());
      ghost var goal := Goal(Run(c, data, 0), Spend(c, data, 0));
      InitialMarksFit(Now(), data);
      var marks := InitialMarks(rec.state);
      var p := 0;
      while p < |data|
        invariant p <= |data| && Stands(c, marks, data, p)
        invariant p < |data| ==> !c.skip && nread == c.n
        invariant rec.state == Chunk(ChunkSizeStart) ==> nread == 0
        invariant Run(c, data, p) == goal.run
        invariant goal.spend == if p < |data| then Spend(c, data, p) else Within(nread - c.n)
        decreases |data| - p
      {
        StartsByte(c, data, p);
        if ParsingHeader(rec.state) {
          var within := CountHeaderSize(1);
          if !within {
            return p;
          }
        }
        var verdict;
        verdict, p, marks, c := ConsumeByte(data, p, marks, Count(c));
        if verdict.Return? {
          return if errno == OK then p + 1 else p;
        }
        p := p + 1;
      }
      RunAtEnd(c, data);
      DeliverRest(marks, data, c);
      ret := |data|;
    }

    /** http_parser_execute: what a call does is what the byte machine does, up to where the header budget is exceeded. */
    method Execute(data: string) returns (ret: nat)
      requires Valid() && |data| < 0x8000_0000
      modifies this
      ensures Valid()
      ensures old(errno) != OK ==> ret == 0 && errno == old(errno) && calls == old(calls) && rec == old(rec) && nread == old(nread)
      ensures old(errno) == OK ==> Did(old(Now()), data, ret)
    {
      if errno != OK {
        ret := 0;
      } else if data == "" {
        ret := AtEof();
      } else {
        ret := ConsumeBuffer(data);
      }
    }

    /** The outcome of a call that began without an error: its callbacks, its returned count and its error; and, when it
        ends without one, the parser and the exact byte count. */
    ghost predicate Did(now: Config, data: string, ret: nat)
      reads this
    {
      && Called(calls, ret, errno) == CallOf(now, data)
      && (errno == OK ==>
            if data == "" then rec == now.ps && nread == now.n
            else
              var goal := RunBuffer(now, data);
              var spend := Spend(Begin(now), data, 0);
              !goal.outcome.Failed? && rec == goal.c.ps && spend.Within? && nread == goal.c.n + spend.extra)
    }
  }
}
