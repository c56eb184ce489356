/** What the machine does over a stretch of bytes of one sort: the facts behind the fast paths of
    http_parser_execute (the inner loops, the memchr jump and the jumps over body bytes). */
module Scan {
  import opened Characters
  import opened Http
  import opened Machine

  /** The configuration in which byte q is looked at, if there is one. */
  function Advance(c: Config, data: string, q: nat): Config {
    if q < |data| then Count(c) else c
  }

  /** Looking at byte q in configuration c' is all that is left of looking at byte p in configuration c. */
  ghost predicate Leads(c: Config, data: string, p: nat, c': Config, q: nat)
    requires p < |data| && q <= |data|
  {
    Resume(c, data, p) == if q < |data| then Resume(c', data, q) else Run(c', data, q)
  }

  /** A pass that consumes its byte. */
  lemma NextLeads(c: Config, data: string, p: nat)
    requires p < |data| && PassOf(c.ps, c.skip, data[p]).control.Next?
    ensures Resume(c, data, p) == Run(After(c, data[p]), data, p + 1)
    ensures Leads(c, data, p, Advance(After(c, data[p]), data, p + 1), p + 1)
  {
    hide PassOf, Count, After;
    assert Passes(c, data[p]) == (After(c, data[p]), Control.Next);
    assert Resume(c, data, p) == Run(After(c, data[p]), data, p + 1);
  }

  /** A pass that ends the run: an upgrade, or an error. */
  lemma StopLeads(c: Config, data: string, p: nat)
    requires p < |data| && (PassOf(c.ps, c.skip, data[p]).control.Exit? || PassOf(c.ps, c.skip, data[p]).control.Fail?)
    ensures Resume(c, data, p)
         == if PassOf(c.ps, c.skip, data[p]).control.Exit? then RunResult(After(c, data[p]), p + 1, Exited)
            else RunResult(After(c, data[p]), p, Failed(PassOf(c.ps, c.skip, data[p]).control.errno))
    ensures PassOf(c.ps, c.skip, data[p]).effect.Nothing? ==> After(c, data[p]).calls == c.calls
  {
    hide PassOf;
    assert Passes(c, data[p]) == (After(c, data[p]), PassOf(c.ps, c.skip, data[p]).control);
  }

  /** A pass that looks at its byte again. */
  lemma AgainLeads(c: Config, data: string, p: nat)
    requires p < |data| && PassOf(c.ps, c.skip, data[p]).control.Again?
    ensures Leads(c, data, p, After(c, data[p]), p)
  {
    hide PassOf, Count, After;
    assert Passes(c, data[p]) == Passes(After(c, data[p]), data[p]);
  }

  /** A run of a body of at least m more bytes: m bytes that do not end the body. */
  predicate Consumes(s: State) {
    s == Content(BodyIdentity) || s == Chunk(ChunkData)
  }

  /** A byte that changes nothing but the trace and, in a body, the length. */
  function Plain(c: Config, m: nat, bytes: string): Config
    requires m <= c.ps.length
  {
    c.(ps := c.ps.(length := c.ps.length - m), pend := Some(Held(c.pend) + bytes))
  }

  lemma BodyByte(c: Config, ch: char)
    requires Consumes(c.ps.state) && c.ps.length > 1
    ensures PassOf(c.ps, c.skip, ch).control.Next?
    ensures After(c, ch) == Plain(c, 1, [ch]).(skip := false)
  {
    hide StartPass, StatusLinePass, TargetPass, VersionPass, FieldsPass, EndingPass;
  }

  /** m bytes inside a body. */
  lemma {:induction false} BodyLeads(c: Config, data: string, p: nat, m: nat)
    requires Consumes(c.ps.state) && 0 < m < c.ps.length && p + m <= |data| && !c.skip && c.n <= c.peak
    ensures Leads(c, data, p, Advance(Plain(c, m, data[p..p + m]), data, p + m), p + m)
    decreases m
  {
    hide PassOf, After, Run, Resume;
    BodyByte(c, data[p]);
    NextLeads(c, data, p);
    assert data[p..p + 1] == [data[p]];
    var c1 := Plain(c, 1, data[p..p + 1]);
    assert Advance(c1, data, p + 1) == if p + 1 < |data| then Count(c1) else c1;
    if m > 1 {
      assert Count(c1) == c1 by { CountBody(c1); }
      BodyLeads(c1, data, p + 1, m - 1);
      assert Held(c.pend) + data[p..p + 1] + data[p + 1..p + m] == Held(c.pend) + data[p..p + m];
      assert Plain(c1, m - 1, data[p + 1..p + m]) == Plain(c, m, data[p..p + m]);
    }
  }

  lemma CountBody(c: Config)
    requires Consumes(c.ps.state) && c.n <= c.peak
    ensures Count(c) == c
  {
  }

  /** The configuration after m bytes of a header value that no keyword can match. */
  function Jump(c: Config, m: nat, bytes: string): Config
    requires m > 0
  {
    var n := c.n + m - 1;
    Config(c.ps, true, n, if n > c.peak then n else c.peak, c.calls, Some(Held(c.pend) + bytes))
  }

  predicate InGeneralValue(ps: Parser) {
    ps.state == Fields(InValue) && ps.hstate.General?
  }

  lemma GeneralByte(c: Config, ch: char)
    requires InGeneralValue(c.ps) && !IsEol(ch) && (c.ps.lenient || c.skip || IsHeaderChar(ch))
    ensures PassOf(c.ps, c.skip, ch).control.Next?
    ensures After(c, ch) == c.(skip := true, pend := Some(Held(c.pend) + [ch]))
  {
    hide StartPass, StatusLinePass, TargetPass, VersionPass, EndingPass, ChunkPass, ContentPass;
  }

  /** m bytes without CR or LF of a header value that no keyword can match: only the first one is examined. */
  lemma {:induction false} JumpLeads(c: Config, data: string, p: nat, m: nat)
    requires InGeneralValue(c.ps) && 0 < m && p + m <= |data| && c.n <= c.peak
    requires c.ps.lenient || c.skip || IsHeaderChar(data[p])
    requires forall i :: p <= i < p + m ==> !IsEol(data[i])
    ensures Leads(c, data, p, Advance(Jump(c, m, data[p..p + m]), data, p + m), p + m)
    decreases m
  {
    hide PassOf, After, Run, Resume;
    GeneralByte(c, data[p]);
    NextLeads(c, data, p);
    assert data[p..p + 1] == [data[p]];
    var c1 := Jump(c, 1, data[p..p + 1]);
    if m > 1 {
      JumpLeads(Count(c1), data, p + 1, m - 1);
      assert Held(c.pend) + data[p..p + 1] + data[p + 1..p + m] == Held(c.pend) + data[p..p + m];
    }
  }

  lemma NameByte(c: Config, ch: char)
    requires c.ps.state == Fields(InField) && IsToken(ch)
    ensures PassOf(c.ps, c.skip, ch).control.Next?
    ensures
      var (h, i) := NameChar(c.ps.hstate, c.ps.index, TokenLower(ch));
      After(c, ch) == c.(ps := c.ps.(hstate := h, index := i), skip := false, pend := Some(Held(c.pend) + [ch]))
  {
    hide StartPass, StatusLinePass, TargetPass, VersionPass, EndingPass, ChunkPass, ContentPass, NameChar;
  }

  /** A byte of a header value that the keyword machine examines. */
  lemma ValueByte(c: Config, ch: char)
    requires c.ps.state == Fields(InValue) && !c.ps.hstate.General? && !c.skip && !IsEol(ch)
    requires c.ps.lenient || IsHeaderChar(ch)
    ensures PassOf(c.ps, c.skip, ch) == ValueChar(c.ps, ch)
    ensures
      var r := ValueChar(c.ps, ch);
      if r.control.Next? then
        && After(c, ch) == c.(ps := r.ps, pend := Some(Held(c.pend) + [ch]))
        && r.ps.state == c.ps.state && r.ps.lenient == c.ps.lenient
      else r.control == Fail(INVALID_CONTENT_LENGTH) && r.effect.Nothing?
  {
    hide StartPass, StatusLinePass, TargetPass, VersionPass, EndingPass, ChunkPass, ContentPass, ListChar, FinishFlags;
  }

  /** The byte that ends a field name. */
  lemma NameEnd(c: Config, ch: char)
    requires c.ps.state == Fields(InField) && !IsToken(ch)
    ensures PassOf(c.ps, c.skip, ch)
         == if ch == ':' then Pass(c.ps.(state := Fields(DiscardWs)), Deliver(Kind.Field), false, Next)
            else Error(c.ps, INVALID_HEADER_TOKEN)
  {
    hide StartPass, StatusLinePass, TargetPass, VersionPass, EndingPass, ChunkPass, ContentPass, NameChar;
  }

  /** The byte that ends a header value, and the one that must not be in it. */
  lemma ValueEnd(c: Config, ch: char)
    requires c.ps.state == Fields(InValue)
    ensures IsEol(ch) ==>
      PassOf(c.ps, c.skip, ch)
      == Pass(c.ps.(state := Fields(ValueAlmostDone)), Deliver(Kind.Value), false, if ch == CR then Next else Again)
    ensures !c.ps.lenient && !c.skip && !IsHeaderChar(ch) ==> PassOf(c.ps, c.skip, ch) == Error(c.ps, INVALID_HEADER_TOKEN)
  {
    hide StartPass, StatusLinePass, TargetPass, VersionPass, EndingPass, ChunkPass, ContentPass, ListChar, FinishFlags;
  }

  /** A byte of a body that only the end of the stream ends. */
  lemma EofByte(c: Config, ch: char)
    requires c.ps.state == Content(BodyIdentityEof)
    ensures PassOf(c.ps, c.skip, ch).control.Next?
    ensures After(c, ch) == c.(skip := false, pend := Some(Held(c.pend) + [ch]))
  {
    hide StartPass, StatusLinePass, TargetPass, VersionPass, FieldsPass, EndingPass, ChunkPass;
  }

  lemma {:induction false} EofLeads(c: Config, data: string, p: nat, m: nat)
    requires c.ps.state == Content(BodyIdentityEof) && 0 < m && p + m <= |data| && !c.skip && c.n <= c.peak
    ensures Leads(c, data, p, Advance(c.(pend := Some(Held(c.pend) + data[p..p + m])), data, p + m), p + m)
    decreases m
  {
    hide PassOf, After, Run, Resume;
    EofByte(c, data[p]);
    NextLeads(c, data, p);
    assert data[p..p + 1] == [data[p]];
    var c1 := c.(pend := Some(Held(c.pend) + data[p..p + 1]));
    if m > 1 {
      assert Count(c1) == c1;
      EofLeads(c1, data, p + 1, m - 1);
      assert Held(c.pend) + data[p..p + 1] + data[p + 1..p + m] == Held(c.pend) + data[p..p + m];
    }
  }

  /** The configuration once a body whose rest is `bytes` has been read: a chunk's stays marked, a message's is
      delivered. */
  function BodyDone(c: Config, bytes: string): Config {
    if c.ps.state.Chunk? then
      c.(ps := c.ps.(length := 0, state := Chunk(ChunkDataAlmostDone)), pend := Some(Held(c.pend) + bytes))
    else
      c.(ps := c.ps.(length := 0, state := Content(MessageDone)),
         calls := c.calls + [Data(Kind.Body, Held(c.pend) + bytes)], pend := None)
  }

  /** The last byte of a body. */
  lemma LastBodyByte(c: Config, ch: char)
    requires Consumes(c.ps.state) && c.ps.length == 1
    ensures PassOf(c.ps, c.skip, ch).control == if c.ps.state.Chunk? then Next else Again
    ensures After(c, ch) == BodyDone(c, [ch]).(skip := false)
  {
    hide StartPass, StatusLinePass, TargetPass, VersionPass, FieldsPass, EndingPass;
  }

  /** The rest of a body: a chunk's is consumed, a message's last byte is looked at again. */
  lemma BodyEndLeads(c: Config, data: string, p: nat, q: nat)
    requires p <= q < |data| && Consumes(c.ps.state) && c.ps.length == q - p + 1 && !c.skip && c.n <= c.peak
    ensures
      var c' := BodyDone(c, data[p..q + 1]);
      Resume(c, data, p) == if c.ps.state.Chunk? then Run(c', data, q + 1) else Resume(c', data, q)
  {
    hide PassOf, After, Run, Resume;
    var c1 := c;
    if p < q {
      BodyLeads(c, data, p, q - p);
      c1 := Plain(c, q - p, data[p..q]);
      CountBody(c1);
      assert Held(c.pend) + data[p..q] + [data[q]] == Held(c.pend) + data[p..q + 1];
    } else {
      assert data[p..q + 1] == [data[q]];
    }
    LastBodyByte(c1, data[q]);
    assert After(c1, data[q]) == BodyDone(c, data[p..q + 1]);
    if c.ps.state.Chunk? { NextLeads(c1, data, q); } else { AgainLeads(c1, data, q); }
  }
}
