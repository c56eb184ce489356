/** How a stream is cut into buffers does not matter: the parser and the merged callback trace after the pieces
    are those after the whole, with one exact exception. */
module Split {
  import opened Characters
  import opened Http
  import opened Trace
  import opened Machine
  import opened Marks
  import opened Scan

  /** The merged trace of a configuration, with the bytes that are marked but not delivered. */
  function TraceOf(c: Config): Trace {
    if c.pend.Some? && c.pend.value != "" && Collecting(c.ps.state).Some? then
      Add(Merged(c.calls), Data(Collecting(c.ps.state).value, c.pend.value))
    else
      Merged(c.calls)
  }

  /** Exactly the datum being collected is marked; a body is marked only once it has a byte in the buffer. */
  predicate PendFits(c: Config) {
    match Collecting(c.ps.state)
    case None => c.pend.None?
    case Some(k) => if k.Body? then c.pend != Some("") else c.pend.Some?
  }

  /** No mark is set without a byte behind it; true after every byte. */
  predicate PendFull(c: Config) {
    PendFits(c) && c.pend != Some("")
  }

  /** The effect of a pass on a merged trace. */
  function Apply(t: Trace, e: Effect, ch: char): Trace {
    match e
    case Byte(k) => Add(t, Data(k, [ch]))
    case LastByte(k) => Add(t, Data(k, [ch]))
    case Deliver(k) => if k.Body? then t else Add(t, Data(k, ""))
    case Empty(k) => Add(t, Data(k, ""))
    case Call(ev) => Add(t, ev)
    case _ => t
  }

  /** The merged trace after a pass depends only on the merged trace before it. */
  lemma AfterTrace(c: Config, ch: char)
    requires PendFits(c) && !PassOf(c.ps, c.skip, ch).control.Fail?
    ensures PendFits(After(c, ch))
    ensures TraceOf(After(c, ch)) == Apply(TraceOf(c), PassOf(c.ps, c.skip, ch).effect, ch)
    ensures PassOf(c.ps, c.skip, ch).control.Next? ==> PendFull(After(c, ch))
  {
    hide PassOf, Collecting, Add, Merged;
    PassSuits(c.ps, c.skip, ch);
    var e := PassOf(c.ps, c.skip, ch).effect;
    var calls := c.calls;
    match e
    case Nothing => assert calls + [] == calls;
    case SetMark(_) => assert calls + [] == calls;
    case Byte(k) =>
      assert calls + [] == calls;
      AddJoins(Merged(calls), k, Held(c.pend), [ch]);
      assert "" + [ch] == [ch];
    case LastByte(k) =>
      MergedSnoc(calls, Data(k, Held(c.pend) + [ch]));
      AddJoins(Merged(calls), k, Held(c.pend), [ch]);
      assert "" + [ch] == [ch];
    case Deliver(k) =>
      if c.pend.Some? {
        MergedSnoc(calls, Data(k, c.pend.value));
        AddJoins(Merged(calls), k, c.pend.value, "");
        assert c.pend.value + "" == c.pend.value;
      } else {
        assert calls + [] == calls;
      }
    case Empty(k) => MergedSnoc(calls, Data(k, ""));
    case Call(ev) => MergedSnoc(calls, ev);
  }

  /** Configurations that only differ in how their callbacks were cut. */
  predicate Alike(c1: Config, c2: Config) {
    && PendFits(c1) && PendFits(c2)
    && c1.ps == c2.ps && c1.n == c2.n && c1.peak == c2.peak
    && TraceOf(c1) == TraceOf(c2)
  }

  /** The bytes that a value loop rejects when it looks at them, which it does not after a jump. */
  predicate Harmless(ps: Parser, ch: char) {
    ps.lenient || IsHeaderChar(ch)
  }

  lemma SamePass(ps: Parser, skip1: bool, skip2: bool, ch: char)
    requires skip1 == skip2 || Harmless(ps, ch)
    ensures PassOf(ps, skip1, ch) == PassOf(ps, skip2, ch)
  {
    hide StartPass, StatusLinePass, TargetPass, VersionPass, EndingPass, ChunkPass, ContentPass, ValueChar, NameChar,
         FirstValueChar, FinishFlags;
  }

  lemma AlikeAfter(c1: Config, c2: Config, ch: char)
    requires Alike(c1, c2) && (c1.skip == c2.skip || Harmless(c1.ps, ch))
    ensures PassOf(c1.ps, c1.skip, ch) == PassOf(c2.ps, c2.skip, ch)
    ensures Alike(After(c1, ch), After(c2, ch)) && After(c1, ch).skip == After(c2, ch).skip
    ensures PassOf(c1.ps, c1.skip, ch).control.Next? ==> PendFull(After(c1, ch)) && PendFull(After(c2, ch))
  {
    SamePass(c1.ps, c1.skip, c2.skip, ch);
    PassSuits(c1.ps, c1.skip, ch);
    hide PassOf, Merged, Add, Collecting, Suits, Fits;
    if PassOf(c1.ps, c1.skip, ch).control.Fail? {
      FailAfter(c1, ch);
      FailAfter(c2, ch);
    } else {
      AfterTrace(c1, ch);
      AfterTrace(c2, ch);
    }
  }

  lemma FailAfter(c: Config, ch: char)
    requires PassOf(c.ps, c.skip, ch).control.Fail?
    ensures After(c, ch) == c.(skip := false)
  {
    PassSuits(c.ps, c.skip, ch);
    hide PassOf;
    assert c.calls + [] == c.calls;
  }

  lemma {:induction false} AlikePasses(c1: Config, c2: Config, ch: char)
    requires Alike(c1, c2) && (c1.skip == c2.skip || Harmless(c1.ps, ch))
    ensures Passes(c1, ch).1 == Passes(c2, ch).1
    ensures
      var (r1, r2) := (Passes(c1, ch).0, Passes(c2, ch).0);
      Alike(r1, r2) && r1.skip == r2.skip && (Passes(c1, ch).1.Next? ==> PendFull(r1) && PendFull(r2))
    decreases Rank(c1.ps.state)
  {
    AlikeAfter(c1, c2, ch);
    hide PassOf, After, Alike, PendFull;
    if PassOf(c1.ps, c1.skip, ch).control.Again? {
      AlikePasses(After(c1, ch), After(c2, ch), ch);
    }
  }

  /** The same parser, byte count and merged trace. */
  predicate Same(c1: Config, c2: Config) {
    c1.ps == c2.ps && c1.n == c2.n && c1.peak == c2.peak && TraceOf(c1) == TraceOf(c2)
  }

  /** What two runs have in common when their inputs and configurations are alike. */
  predicate SameResult(r1: RunResult, p1: nat, r2: RunResult, p2: nat) {
    && r1.outcome == r2.outcome && r1.at - p1 == r2.at - p2
    && Same(r1.c, r2.c) && (r1.outcome.Completed? ==> r1.c.skip == r2.c.skip)
  }

  lemma CountAlike(c1: Config, c2: Config)
    requires Alike(c1, c2)
    ensures Alike(Count(c1), Count(c2)) && Count(c1).skip == c1.skip && Count(c2).skip == c2.skip && Count(c1).ps == c1.ps
  {
    hide Merged, Add, Collecting;
  }

  /** Delivering what is marked at the end of a buffer, and marking it again at the start of the next one, does
      not change the merged trace. */
  lemma EndTrace(c: Config)
    requires PendFull(c)
    ensures Same(End(c), c) && End(c).skip == c.skip
    ensures Alike(Begin(End(c)), c)
  {
    hide Merged, Add, Collecting;
    if c.pend.Some? {
      MergedSnoc(c.calls, Data(Collecting(c.ps.state).value, c.pend.value));
    }
  }

  lemma {:induction false} AlikeRuns(c1: Config, d1: string, p1: nat, c2: Config, d2: string, p2: nat)
    requires p1 < |d1| && p2 < |d2| && d1[p1..] == d2[p2..]
    requires Alike(c1, c2) && (c1.skip == c2.skip || Harmless(c1.ps, d1[p1]))
    ensures SameResult(Run(c1, d1, p1), p1, Run(c2, d2, p2), p2)
    decreases |d1| - p1
  {
    hide Passes, Count, Alike, Same, End, TraceOf, PendFull;
    var ch := d1[p1];
    assert ch == d1[p1..][0] == d2[p2..][0] == d2[p2];
    assert d1[p1 + 1..] == d1[p1..][1..] == d2[p2..][1..] == d2[p2 + 1..];
    CountAlike(c1, c2);
    AlikePasses(Count(c1), Count(c2), ch);
    var (r1, k1) := Passes(Count(c1), ch);
    var (r2, k2) := Passes(Count(c2), ch);
    assert k1 == k2;
    if k1.Next? {
      assert Run(c1, d1, p1) == Run(r1, d1, p1 + 1) && Run(c2, d2, p2) == Run(r2, d2, p2 + 1);
      assert |d1[p1 + 1..]| == |d2[p2 + 1..]|;
      if p1 + 1 == |d1| {
        AlikeEnds(r1, r2);
      } else {
        AlikeRuns(r1, d1, p1 + 1, r2, d2, p2 + 1);
      }
    } else {
      AlikeSame(r1, r2);
    }
  }

  lemma AlikeSame(c1: Config, c2: Config)
    requires Alike(c1, c2)
    ensures Same(c1, c2)
  {
  }

  lemma AlikeEnds(c1: Config, c2: Config)
    requires Alike(c1, c2) && PendFull(c1) && PendFull(c2) && c1.skip == c2.skip
    ensures Same(End(c1), End(c2)) && End(c1).skip == End(c2).skip
  {
    EndTrace(c1);
    EndTrace(c2);
    hide TraceOf, End;
  }

  /** A run over a longer buffer does on the first part what a run over that part does. */
  lemma {:induction false} RunPrefix(c: Config, a: string, b: string, p: nat) returns (c': Config)
    requires p < |a| && PendFits(c) && (c.skip ==> InGeneralValue(c.ps))
    ensures !Run(c, a, p).outcome.Completed? ==> Run(c, a + b, p) == Run(c, a, p)
    ensures Run(c, a, p).outcome.Completed? ==>
      && Run(c, a, p).c == End(c') && PendFull(c') && (c'.skip ==> InGeneralValue(c'.ps))
      && c'.ps.lenient == c.ps.lenient
      && Run(c, a + b, p) == Run(c', a + b, |a|)
    decreases |a| - p
  {
    hide Passes, Count, PendFits, PendFull, End;
    assert (a + b)[p] == a[p];
    CountFits(c);
    PassesFit(Count(c), a[p]);
    var (r, k) := Passes(Count(c), a[p]);
    c' := r;
    if k.Next? {
      assert Run(c, a, p) == Run(r, a, p + 1) && Run(c, a + b, p) == Run(r, a + b, p + 1);
      if p + 1 < |a| {
        c' := RunPrefix(r, a, b, p + 1);
      } else {
        assert Run(r, a, p + 1) == RunResult(End(r), |a|, Completed);
      }
    }
  }

  lemma CountFits(c: Config)
    ensures PendFits(c) ==> PendFits(Count(c))
    ensures Count(c) == c.(n := Count(c).n, peak := Count(c).peak)
  {
  }

  lemma {:induction false} PassesFit(c: Config, ch: char)
    requires PendFits(c) && (c.skip ==> InGeneralValue(c.ps))
    ensures Passes(c, ch).1.Next? ==>
      var r := Passes(c, ch).0;
      PendFits(r) && PendFull(r) && (r.skip ==> InGeneralValue(r.ps)) && r.ps.lenient == c.ps.lenient
    decreases Rank(c.ps.state)
  {
    hide PassOf, PendFull, PendFits, TraceOf;
    PassSuits(c.ps, c.skip, ch);
    SkipStays(c, ch);
    if !PassOf(c.ps, c.skip, ch).control.Fail? {
      AfterTrace(c, ch);
      if PassOf(c.ps, c.skip, ch).control.Again? {
        PassesFit(After(c, ch), ch);
      } else {
        FullFits(After(c, ch));
      }
    }
  }

  lemma FullFits(c: Config)
    ensures PendFull(c) ==> PendFits(c)
  {
  }

  lemma SkipStays(c: Config, ch: char)
    ensures After(c, ch).skip ==> InGeneralValue(After(c, ch).ps)
  {
    hide StartPass, StatusLinePass, TargetPass, VersionPass, EndingPass, ChunkPass, ContentPass, NameChar, FirstValueChar,
         FinishFlags;
  }

  lemma BeginFits(c: Config)
    ensures PendFits(Begin(c)) && !Begin(c).skip && Begin(c).ps == c.ps
  {
  }

  /** A buffer that begins with an illegal byte of an unrecognised header value is rejected at once, while the
      same byte is jumped over when it follows another such byte. */
  lemma ExposedByte(c: Config, c': Config, b: string, d: string, p: nat)
    requires b != "" && InGeneralValue(c.ps) && !Harmless(c.ps, b[0])
    requires p < |d| && d[p] == b[0] && c'.skip && c'.ps == c.ps
    ensures RunBuffer(c, b).outcome == Failed(INVALID_HEADER_TOKEN) && RunBuffer(c, b).at == 0
    ensures Run(c', d, p).at > p
  {
    var c1 := Count(Begin(c));
    assert c1.ps == c.ps && !c1.skip;
    ValueEnd(c1, b[0]);
    StopLeads(c1, b, 0);
    var c2 := Count(c');
    assert c2.ps == c.ps && c2.skip;
    GeneralByte(c2, d[p]);
    NextLeads(c2, d, p);
    hide PassOf, Passes;
  }

  /** Splitting a buffer: the run over a and then b is the run over a + b, unless the cut exposes a byte that the
      value loop would have jumped over to its check, in which case the second run is rejected at that byte. */
  lemma SplitBuffer(c: Config, a: string, b: string)
    requires a != "" && b != ""
    ensures
      var first := RunBuffer(c, a);
      var whole := RunBuffer(c, a + b);
      if !first.outcome.Completed? then whole == first
      else
        var second := RunBuffer(first.c, b);
        if first.c.skip && !Harmless(first.c.ps, b[0]) then
          && second.outcome == Failed(INVALID_HEADER_TOKEN) && second.at == 0 && whole.at > |a|
        else
          SameResult(whole, |a|, second, 0)
  {
    hide Run, TraceOf;
    BeginFits(c);
    var first := RunBuffer(c, a);
    var c' := RunPrefix(Begin(c), a, b, 0);
    if first.outcome.Completed? {
      EndTrace(c');
      assert (a + b)[|a|..] == b == b[0..];
      assert (a + b)[|a|] == b[0];
      if first.c.skip && !Harmless(first.c.ps, b[0]) {
        ExposedByte(first.c, c', b, a + b, |a|);
      } else {
        AlikeRuns(c', a + b, |a|, Begin(first.c), b, 0);
      }
    }
  }

  /** The whole stream. */
  function Flatten(pieces: seq<string>): string {
    if pieces == [] then "" else pieces[0] + Flatten(pieces[1..])
  }

  /** One call for each piece, until a call does not complete. */
  function RunAll(c: Config, pieces: seq<string>): (r: RunResult)
    ensures r.c.peak >= c.peak
    decreases |pieces|
  {
    if pieces == [] then RunResult(c, 0, Completed)
    else
      var first := RunBuffer(c, pieces[0]);
      if !first.outcome.Completed? then first
      else
        var rest := RunAll(first.c, pieces[1..]);
        rest.(at := |pieces[0]| + rest.at)
  }

  /** Any partition of a stream into non-empty buffers gives the parser, the outcome and the merged trace of one
      buffer, unless the partition exposes an illegal header value byte to its check. */
  lemma {:induction false} Partition(c: Config, pieces: seq<string>)
    requires pieces != [] && forall i :: 0 <= i < |pieces| ==> pieces[i] != ""
    ensures
      var whole := RunBuffer(c, Flatten(pieces));
      var all := RunAll(c, pieces);
      all.outcome != Failed(INVALID_HEADER_TOKEN) || c.ps.lenient || (forall i :: 0 <= i < |Flatten(pieces)| ==> IsHeaderChar(Flatten(pieces)[i]))
      ==> SameResult(whole, 0, all, 0)
    decreases |pieces|
  {
    hide Run, TraceOf;
    var a, rest := pieces[0], pieces[1..];
    var b := Flatten(rest);
    if rest == [] {
      assert a + b == a;
      assert RunAll(RunBuffer(c, a).c, rest) == RunResult(RunBuffer(c, a).c, 0, Completed);
      SameAsItself(RunBuffer(c, a));
    } else {
      assert rest[0] == pieces[1] != "";
      assert b == rest[0] + Flatten(rest[1..]);
      SplitBuffer(c, a, b);
      var first := RunBuffer(c, a);
      if first.outcome.Completed? {
        assert forall i :: 0 <= i < |b| ==> b[i] == (a + b)[|a| + i];
        BeginFits(c);
        var c' := RunPrefix(Begin(c), a, b, 0);
        assert first.c.ps.lenient == c.ps.lenient;
        Partition(first.c, rest);
        if first.c.skip && !Harmless(first.c.ps, b[0]) {
          ExposedByte(first.c, c', rest[0], a + b, |a|);
        }
      } else {
        SameAsItself(first);
      }
    }
  }

  lemma SameAsItself(r: RunResult)
    ensures SameResult(r, 0, r, 0)
  {
  }

  /** A call that completes leaves nothing undelivered. */
  lemma AllDelivered(c: Config, data: string)
    requires data != "" && RunBuffer(c, data).outcome.Completed?
    ensures RunBuffer(c, data).c.pend.None? && TraceOf(RunBuffer(c, data).c) == Merged(RunBuffer(c, data).c.calls)
  {
    hide Run, Merged, Collecting;
    BeginFits(c);
    var c' := RunPrefix(Begin(c), data, "", 0);
  }
}
