/** What the byte count does: in a head, in the line with the size of a chunk, and in trailers every byte is counted, once. */
module Counting {
  import opened Characters
  import opened Http
  import opened UrlChar
  import opened Machine
  import opened Budget
  import opened Reading

  /** In a head, in the line with the size of a chunk, or in trailers. */
  predicate InPart(ps: Parser) {
    match ps.state
    case Start(_) => true
    case StatusLine(_) => true
    case Target(_) => true
    case Version(_) => true
    case Fields(_) => true
    case Ending(e) => e.HeadersAlmostDone?
    case Chunk(x) => x in {ChunkSizeStart, ChunkSize, ChunkParameters, ChunkSizeAlmostDone}
    case _ => false
  }

  /** The callbacks at the end of such a part. */
  predicate EndsPart(e: Event) {
    e.HeadersComplete? || e.ChunkHeader? || e.ChunkComplete?
  }

  predicate NoEnd(calls: seq<Event>) {
    forall e | e in calls :: !EndsPart(e)
  }

  /** A pass leads on in the part, and leaves the count; or it ends the part; or it fails. */
  predicate StaysInPart(r: Pass) {
    r.control.Fail? || (r.effect.Call? && EndsPart(r.effect.event)) || (InPart(r.ps) && !r.reset)
  }

  /** The larger of two counts. */
  function Higher(p: nat, n: nat): nat {
    if n > p then n else p
  }

  lemma StartStays(ps: Parser, s: StartState, ch: char)
    requires ps.state == Start(s) && InPart(ps)
    ensures StaysInPart(StartPass(ps, s, ch))
  {
    hide MethodString, FirstLetter, Redirect;
  }

  lemma StatusLineStays(ps: Parser, s: StatusLineState, ch: char)
    requires ps.state == StatusLine(s) && InPart(ps)
    ensures StaysInPart(StatusLinePass(ps, s, ch))
  {
  }

  lemma TargetStays(ps: Parser, s: UrlState, ch: char)
    requires ps.state == Target(s) && InPart(ps)
    ensures StaysInPart(TargetPass(ps, s, ch))
  {
    hide ParseUrlChar;
  }

  lemma VersionStays(ps: Parser, s: VersionState, ch: char)
    requires ps.state == Version(s) && InPart(ps)
    ensures StaysInPart(VersionPass(ps, s, ch))
  {
  }

  lemma FieldsStay(ps: Parser, s: FieldState, skip: bool, ch: char)
    requires ps.state == Fields(s) && InPart(ps)
    ensures StaysInPart(FieldsPass(ps, s, skip, ch))
  {
    FirstValueStays(ps, ch);
    ValueStays(ps, ch);
    hide FinishFlags, FirstNameChar, NameChar, ValueChar, FirstValueChar, IsToken, TokenLower, IsHeaderChar;
  }

  lemma FirstValueStays(ps: Parser, ch: char)
    ensures StaysInPart(FirstValueChar(ps, ch))
  {
    hide FirstValueState;
  }

  lemma ValueStays(ps: Parser, ch: char)
    requires ps.state.Fields?
    ensures StaysInPart(ValueChar(ps, ch))
  {
    hide FinishFlags, ListChar;
  }

  lemma PassStays(ps: Parser, skip: bool, ch: char)
    requires InPart(ps)
    ensures StaysInPart(PassOf(ps, skip, ch))
  {
    hide StaysInPart, StartPass, StatusLinePass, TargetPass, VersionPass, FieldsPass, EndingPass, ChunkPass, ContentPass;
    match ps.state
    case Start(s) => StartStays(ps, s, ch);
    case StatusLine(s) => StatusLineStays(ps, s, ch);
    case Target(s) => TargetStays(ps, s, ch);
    case Version(s) => VersionStays(ps, s, ch);
    case Fields(s) => FieldsStay(ps, s, skip, ch);
    case Ending(s) => EndingStays(ps, ch);
    case Chunk(s) => ChunkStays(ps, s, ch);
  }

  lemma EndingStays(ps: Parser, ch: char)
    requires ps.state == Ending(HeadersAlmostDone) && InPart(ps)
    ensures StaysInPart(EndingPass(ps, HeadersAlmostDone, ch))
  {
  }

  lemma ChunkStays(ps: Parser, s: ChunkState, ch: char)
    requires ps.state == Chunk(s) && InPart(ps)
    ensures StaysInPart(ChunkPass(ps, s, ch))
  {
  }

  /** The callbacks made from c on. */
  predicate NoEndSince(c: Config, d: Config) {
    c.calls <= d.calls && NoEnd(d.calls[|c.calls|..])
  }

  lemma Between(c: Config, b: Config, d: Config)
    requires c.calls <= b.calls <= d.calls && NoEndSince(c, d)
    ensures NoEndSince(c, b) && NoEndSince(b, d)
  {
    hide EndsPart;
    var (since, k) := (d.calls[|c.calls|..], |b.calls| - |c.calls|);
    assert b.calls[|c.calls|..] == since[..k] && d.calls[|b.calls|..] == since[k..];
  }

  lemma CallsOf(c: Config, ch: char)
    ensures After(c, ch).calls == c.calls + Calls(c.pend, PassOf(c.ps, c.skip, ch).effect, ch)
    ensures PassOf(c.ps, c.skip, ch).effect.Call? && EndsPart(PassOf(c.ps, c.skip, ch).effect.event) ==> !NoEndSince(c, After(c, ch))
  {
    hide PassOf, EndsPart;
    var r := PassOf(c.ps, c.skip, ch);
    if r.effect.Call? {
      assert After(c, ch).calls[|c.calls|..] == [r.effect.event];
      assert r.effect.event in [r.effect.event];
    }
  }

  lemma {:induction false} PassesStay(c: Config, ch: char)
    requires InPart(c.ps) && !Passes(c, ch).1.Fail? && NoEndSince(c, Passes(c, ch).0)
    ensures InPart(Passes(c, ch).0.ps) && Passes(c, ch).0.n == c.n
    decreases Rank(c.ps.state)
  {
    PassStays(c.ps, c.skip, ch);
    CallsOf(c, ch);
    hide PassOf, InPart, EndsPart, NoEndSince;
    if PassOf(c.ps, c.skip, ch).control.Again? {
      PassesGrow(After(c, ch), ch);
      Between(c, After(c, ch), Passes(c, ch).0);
      PassesStay(After(c, ch), ch);
    }
  }

  lemma CountInPart(c: Config)
    requires InPart(c.ps)
    ensures Count(c).ps == c.ps && Count(c).n == c.n + 1 && Count(c).peak == Higher(c.peak, c.n + 1) && Count(c).calls == c.calls
  {
  }

  /** As long as the part has not ended every byte is counted. */
  lemma {:induction false} ReadCounts(c: Config, s: string)
    requires InPart(c.ps) && Read(c, s).Some? && NoEndSince(c, Read(c, s).value) && c.n <= c.peak
    ensures
      var d := Read(c, s).value;
      InPart(d.ps) && d.n == c.n + |s| && d.peak == Higher(c.peak, d.n)
    decreases |s|
  {
    hide Passes, Count, InPart, EndsPart, NoEndSince;
    if s != "" {
      var c' := Passes(Count(c), s[0]).0.(skip := false);
      CountInPart(c);
      PassesGrow(Count(c), s[0]);
      ReadGrows(c', s[1..]);
      Between(c, c', Read(c, s).value);
      SameSince(c, Count(c), c', Passes(Count(c), s[0]).0);
      PassesStay(Count(c), s[0]);
      ReadCounts(c', s[1..]);
    }
  }

  lemma SameSince(c: Config, d: Config, b: Config, e: Config)
    requires c.calls == d.calls && b.calls == e.calls
    ensures NoEndSince(c, b) <==> NoEndSince(d, e)
  {
  }

  lemma {:induction false} ReadGrows(c: Config, s: string)
    requires Read(c, s).Some?
    ensures c.calls <= Read(c, s).value.calls
    decreases |s|
  {
    hide Passes, Count;
    if s != "" {
      PassesGrow(Count(c), s[0]);
      CountKept(c);
      ReadGrows(Passes(Count(c), s[0]).0.(skip := false), s[1..]);
    }
  }
}
