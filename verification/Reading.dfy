/** Reading a string: the algebra with which messages are followed through the machine. */
module Reading {
  import opened Http
  import opened Machine
  import opened Scan
  import opened Split

  /** The configuration after the bytes of s, if every one of them is consumed without ending the run, and without
      relying on the jump that skips the check of header value bytes. */
  function Read(c: Config, s: string): Option<Config>
    decreases |s|
  {
    if s == "" then Some(c)
    else
      var (c', control) := Passes(Count(c), s[0]);
      if control.Next? then Read(c'.(skip := false), s[1..]) else None
  }

  lemma {:induction false} ReadJoin(c: Config, s: string, t: string)
    ensures Read(c, s + t) == match Read(c, s) case None => None case Some(c1) => Read(c1, t)
    decreases |s|
  {
    hide Passes, Count;
    if s == "" {
      assert s + t == t;
    } else {
      assert (s + t)[0] == s[0] && (s + t)[1..] == s[1..] + t;
      var (c', control) := Passes(Count(c), s[0]);
      if control.Next? {
        ReadJoin(c'.(skip := false), s[1..], t);
      }
    }
  }

  lemma ReadOne(c: Config, ch: char)
    requires PassOf(c.ps, c.skip, ch).control.Next?
    ensures Read(c, [ch]) == Some(After(Count(c), ch).(skip := false))
  {
    hide PassOf, After, Count;
    var c1 := After(Count(c), ch);
    assert Passes(Count(c), ch) == (c1, Control.Next);
    assert Read(c, [ch]) == Read(c1.(skip := false), []);
  }

  lemma ReadNothing(c: Config)
    ensures Read(c, []) == Some(c)
  {
  }

  /** Skipping the check of a byte only matters where the check fails. */
  lemma SkipMatters(ps: Parser, ch: char)
    ensures PassOf(ps, true, ch) == PassOf(ps, false, ch) || PassOf(ps, false, ch).control.Fail?
  {
    hide StartPass, StatusLinePass, TargetPass, VersionPass, EndingPass, ChunkPass, ContentPass, ValueChar, NameChar,
         FirstValueChar, FinishFlags;
  }

  lemma CheckedPasses(c: Config, ch: char)
    requires Passes(c.(skip := false), ch).1.Next?
    ensures Passes(c, ch) == Passes(c.(skip := false), ch)
  {
    SkipMatters(c.ps, ch);
    hide PassOf;
    assert After(c, ch) == After(c.(skip := false), ch) by { SkipForgotten(c, ch); }
  }

  lemma SkipForgotten(c: Config, ch: char)
    requires PassOf(c.ps, c.skip, ch) == PassOf(c.ps, false, ch)
    ensures After(c, ch) == After(c.(skip := false), ch)
  {
    hide PassOf;
  }

  lemma CountSkip(c: Config)
    ensures Count(c.(skip := false)) == Count(c).(skip := false)
  {
  }

  lemma {:induction false} PassesSkip(c: Config, ch: char)
    requires c.skip ==> InGeneralValue(c.ps)
    ensures Passes(c, ch).1.Next? && Passes(c, ch).0.skip ==> InGeneralValue(Passes(c, ch).0.ps)
    decreases Rank(c.ps.state)
  {
    SkipStays(c, ch);
    hide PassOf;
    if PassOf(c.ps, c.skip, ch).control.Again? {
      PassesSkip(After(c, ch), ch);
    }
  }

  /** A run goes through what can be read. */
  lemma {:induction false} RunReads(c: Config, data: string, p: nat, q: nat) returns (skip: bool)
    requires p <= q <= |data| && (c.skip ==> InGeneralValue(c.ps)) && Read(c.(skip := false), data[p..q]).Some?
    ensures
      var d := Read(c.(skip := false), data[p..q]).value;
      Run(c, data, p) == Run(d.(skip := skip), data, q) && (skip ==> InGeneralValue(d.ps))
    decreases q - p
  {
    hide Passes, Count;
    skip := c.skip;
    if p < q {
      var ch := data[p];
      assert data[p..q][0] == ch && data[p..q][1..] == data[p + 1..q];
      CountSkip(c);
      CheckedPasses(Count(c), ch);
      var (c', control) := Passes(Count(c), ch);
      CountKeeps(c);
      PassesSkip(Count(c), ch);
      assert Run(c, data, p) == Run(c', data, p + 1);
      skip := RunReads(c', data, p + 1, q);
    } else {
      assert c == c.(skip := false).(skip := skip);
    }
  }

  lemma CountKeeps(c: Config)
    ensures Count(c).ps == c.ps && Count(c).skip == c.skip
  {
  }

  /** A buffer that can be read is completed. */
  lemma RunWhole(c: Config, data: string) returns (skip: bool)
    requires Read(Begin(c), data).Some?
    ensures
      var d := Read(Begin(c), data).value;
      RunBuffer(c, data) == RunResult(End(d.(skip := skip)), |data|, Completed) && (skip ==> InGeneralValue(d.ps))
  {
    hide Read;
    assert data[0..|data|] == data;
    skip := RunReads(Begin(c), data, 0, |data|);
  }

  /** What can be read does not depend on how the callbacks were cut. */
  lemma {:induction false} AlikeReads(c1: Config, c2: Config, s: string)
    requires Alike(c1, c2) && !c1.skip && !c2.skip
    ensures Read(c1, s).Some? <==> Read(c2, s).Some?
    ensures Read(c1, s).Some? ==> Alike(Read(c1, s).value, Read(c2, s).value)
    decreases |s|
  {
    hide Passes, Count, Alike, PendFull;
    if s != "" {
      CountAlike(c1, c2);
      AlikePasses(Count(c1), Count(c2), s[0]);
      var (r1, k1) := Passes(Count(c1), s[0]);
      var (r2, k2) := Passes(Count(c2), s[0]);
      if k1.Next? {
        NoSkipAlike(r1, r2);
        AlikeReads(r1.(skip := false), r2.(skip := false), s[1..]);
      }
    }
  }

  lemma NoSkipAlike(c1: Config, c2: Config)
    requires Alike(c1, c2)
    ensures Alike(c1.(skip := false), c2.(skip := false))
  {
    hide Trace.Merged, Trace.Add, Collecting;
  }

  /** A stream that can be read is read in any partition into buffers, with the same parser and merged callbacks. */
  lemma {:induction false} ReadInPieces(c: Config, pieces: seq<string>)
    requires pieces != [] && (forall i :: 0 <= i < |pieces| ==> pieces[i] != "") && Read(Begin(c), Flatten(pieces)).Some?
    ensures RunAll(c, pieces).outcome == Completed && RunAll(c, pieces).at == |Flatten(pieces)|
    ensures Same(RunAll(c, pieces).c, Read(Begin(c), Flatten(pieces)).value)
    decreases |pieces|
  {
    hide Read, Run, Begin, End, TraceOf, Alike, PendFull, Same, PendFits;
    var a, rest := pieces[0], pieces[1..];
    var b := Flatten(rest);
    ReadJoin(Begin(c), a, b);
    var skip := RunWhole(c, a);
    var d := Read(Begin(c), a).value;
    PieceEnds(c, a, d, skip);
    var c1 := RunBuffer(c, a).c;
    if rest == [] {
      assert a + b == a;
      assert RunAll(c1, rest) == RunResult(c1, 0, Completed);
    } else {
      assert rest[0] == pieces[1] != "";
      AlikeReads(Begin(c1), d, b);
      ReadInPieces(c1, rest);
      SameTwice(RunAll(c1, rest).c, Read(Begin(c1), b).value, Read(d, b).value);
    }
  }

  lemma SameTwice(c1: Config, c2: Config, c3: Config)
    requires Same(c1, c2) && Alike(c2, c3)
    ensures Same(c1, c3)
  {
    hide TraceOf;
  }

  lemma PieceEnds(c: Config, a: string, d: Config, skip: bool)
    requires a != "" && Read(Begin(c), a) == Some(d) && RunBuffer(c, a) == RunResult(End(d.(skip := skip)), |a|, Completed)
    ensures Alike(Begin(RunBuffer(c, a).c), d) && !Begin(RunBuffer(c, a).c).skip && !d.skip && Same(RunBuffer(c, a).c, d)
  {
    BeginFits(c);
    ReadFull(Begin(c), a);
    EndTrace(d.(skip := skip));
    BeginFits(RunBuffer(c, a).c);
    SkipInvisible(d, skip);
    hide Run, End, Begin, TraceOf, PendFits;
  }

  lemma SkipInvisible(c: Config, skip: bool)
    ensures TraceOf(c.(skip := skip)) == TraceOf(c) && PendFits(c.(skip := skip)) == PendFits(c) && PendFull(c.(skip := skip)) == PendFull(c)
  {
  }

  lemma {:induction false} ReadFull(c: Config, s: string)
    requires PendFits(c) && !c.skip && s != "" && Read(c, s).Some?
    ensures PendFull(Read(c, s).value) && !Read(c, s).value.skip
    decreases |s|
  {
    hide Passes, Count, PendFits, PendFull;
    CountFits(c);
    CountKeeps(c);
    PassesFit(Count(c), s[0]);
    var c' := Passes(Count(c), s[0]).0;
    SkipInvisible(c', false);
    if s[1..] == "" {
      ReadNothing(c'.(skip := false));
    } else {
      ReadFull(c'.(skip := false), s[1..]);
    }
  }

  /** Reading n bytes raises the byte count by at most n. */
  lemma {:induction false} ReadPeak(c: Config, s: string)
    requires Read(c, s).Some?
    ensures Read(c, s).value.n <= c.n + |s|
    ensures Read(c, s).value.peak <= if c.n + |s| > c.peak then c.n + |s| else c.peak
    decreases |s|
  {
    if s != "" {
      hide Passes;
      ReadPeak(Passes(Count(c), s[0]).0.(skip := false), s[1..]);
    }
  }

  /** Reading one byte whose pass is known. */
  lemma ReadPass(c: Config, ch: char, r: Pass, rest: string) returns (c': Config)
    requires PassOf(c.ps, c.skip, ch) == r && r.control.Next?
    ensures Read(c, [ch] + rest) == Read(c', rest)
    ensures c'.ps == r.ps && !c'.skip
    ensures c'.calls == c.calls + Calls(c.pend, r.effect, ch) && c'.pend == Pend(c.pend, r.effect, ch)
    ensures c'.n == (if r.reset then 0 else Count(c).n) && c'.peak == Count(c).peak
  {
    hide PassOf, Read, Passes;
    ReadOne(c, ch);
    c' := After(Count(c), ch).(skip := false);
    ReadJoin(c, [ch], rest);
  }

  /** Reading one byte that takes two passes. */
  lemma ReadTwoPasses(c: Config, ch: char, rest: string) returns (c': Config)
    requires PassOf(c.ps, c.skip, ch).control.Again?
    requires var c1 := After(Count(c), ch); PassOf(c1.ps, c1.skip, ch).control.Next?
    ensures Read(c, [ch] + rest) == Read(c', rest)
    ensures c' == After(After(Count(c), ch), ch).(skip := false) && !After(Count(c), ch).skip
  {
    hide PassOf, Read, Count;
    var c1 := After(Count(c), ch);
    c' := After(c1, ch).(skip := false);
    assert Passes(c1, ch) == (After(c1, ch), Control.Next);
    assert Passes(Count(c), ch) == Passes(c1, ch);
    ReadFirst(c, ch, rest);
  }

  lemma ReadFirst(c: Config, ch: char, rest: string)
    ensures Read(c, [ch] + rest) == if Passes(Count(c), ch).1.Next? then Read(Passes(Count(c), ch).0.(skip := false), rest) else None
  {
    hide Passes, Count;
    assert ([ch] + rest)[0] == ch && ([ch] + rest)[1..] == rest;
  }

  lemma FailedRead(c: Config, ch: char, rest: string)
    requires PassOf(c.ps, c.skip, ch).control.Fail?
    ensures Read(c, [ch] + rest) == None
  {
    hide PassOf;
    ReadFirst(c, ch, rest);
  }

  // Reading to a byte that may end the run

  /** The bytes of s but the last are read, and d and control are what comes of the last. */
  predicate EndsIn(c: Config, s: string, d: Config, control: Control) {
    && s != "" && Read(c, s[..|s| - 1]).Some?
    && var b := Read(c, s[..|s| - 1]).value;
       !InGeneralValue(b.ps) && Passes(Count(b), s[|s| - 1]) == (d, control)
  }

  lemma EndsJoin(c: Config, a: string, s: string, d: Config, control: Control)
    requires Read(c, a).Some? && EndsIn(Read(c, a).value, s, d, control)
    ensures EndsIn(c, a + s, d, control)
  {
    hide Passes, Count, Read;
    var t := s[..|s| - 1];
    ReadJoin(c, a, t);
    assert (a + s)[..|a + s| - 1] == a + t;
  }

  lemma EndsRead(c: Config, s: string, d: Config)
    requires EndsIn(c, s, d, Control.Next)
    ensures Read(c, s) == Some(d.(skip := false))
  {
    hide Passes, Count, Read;
    var k := |s| - 1;
    assert s == s[..k] + [s[k]];
    ReadJoin(c, s[..k], [s[k]]);
    assert [s[k]] + [] == [s[k]];
    ReadFirst(Read(c, s[..k]).value, s[k], []);
    ReadNothing(d.(skip := false));
  }

  lemma EndsFacts(c: Config, s: string, d: Config, control: Control)
    requires EndsIn(c, s, d, control)
    ensures s != "" && Read(c, s[..|s| - 1]).Some?
  {
  }

  /** How a run ends with a byte that stops it. */
  function Stopped(control: Control): Outcome
    requires control.Exit? || control.Fail?
  {
    if control.Exit? then Exited else Failed(control.errno)
  }

  function StoppedAt(control: Control, size: nat): nat {
    if control.Fail? && size > 0 then size - 1 else size
  }

  lemma BufferStops(c: Config, a: string, s: string, d: Config, control: Control)
    requires EndsIn(Begin(c), s, d, control) && (control.Exit? || control.Fail?) && s <= a
    ensures RunBuffer(c, a) == RunResult(d, StoppedAt(control, |s|), Stopped(control))
  {
    hide Passes, Count, Read, Run;
    var k := |s| - 1;
    assert a[0..k] == s[..k];
    var skip := RunReads(Begin(c), a, 0, k);
    var b := Read(Begin(c), s[..k]).value;
    ReadClears(Begin(c), s[..k]);
    assert b.(skip := skip) == b;
    OneResume(b, a, k);
  }

  lemma OneResume(c: Config, a: string, k: nat)
    requires k < |a|
    ensures
      var (d, control) := Passes(Count(c), a[k]);
      control.Exit? || control.Fail? ==> Run(c, a, k) == RunResult(d, StoppedAt(control, k + 1), Stopped(control))
  {
    hide Passes, Count;
  }

  lemma {:induction false} ReadClears(c: Config, s: string)
    requires !c.skip && Read(c, s).Some?
    ensures !Read(c, s).value.skip
    decreases |s|
  {
    hide Passes, Count;
    if s != "" { ReadClears(Passes(Count(c), s[0]).0.(skip := false), s[1..]); }
  }

  /** A stream whose bytes can be read up to one that stops the run is stopped there in any partition into buffers, with the
      same parser and merged callbacks. */
  lemma {:induction false} StopsInPieces(c: Config, s: string, rest: string, pieces: seq<string>, d: Config, control: Control)
    requires EndsIn(Begin(c), s, d, control) && (control.Exit? || control.Fail?)
    requires (forall i :: 0 <= i < |pieces| ==> pieces[i] != "") && Flatten(pieces) == s + rest
    ensures
      var r := RunAll(c, pieces);
      r.outcome == Stopped(control) && r.at == StoppedAt(control, |s|) && Same(r.c, d)
    decreases |pieces|
  {
    hide Read, Run, Begin, End, TraceOf, Alike, PendFull, Same, PendFits, Passes, Count;
    assert pieces != [];
    var a, more := pieces[0], pieces[1..];
    if |a| >= |s| {
      assert s <= a by { assert (s + rest)[..|s|] == s && Flatten(pieces)[..|a|] == a; }
      BufferStops(c, a, s, d, control);
      SameSelf(d);
    } else {
      var t := s[|a|..];
      assert a == s[..|a|] by { assert Flatten(pieces)[..|a|] == a && (s + rest)[..|a|] == s[..|a|]; }
      assert s == a + t;
      assert Flatten(more) == t + rest by { assert Flatten(pieces)[|a|..] == Flatten(more) && (s + rest)[|a|..] == t + rest; }
      EndsSplit(Begin(c), a, t, d, control);
      var skip := RunWhole(c, a);
      var b := Read(Begin(c), a).value;
      PieceEnds(c, a, b, skip);
      var c1 := RunBuffer(c, a).c;
      var d1 := AlikeEnds(Begin(c1), b, t, d, control);
      StopsInPieces(c1, t, rest, more, d1, control);
      SameTwice(RunAll(c1, more).c, d1, d);
    }
  }

  lemma SameSelf(d: Config)
    ensures Same(d, d)
  {
  }

  lemma EndsSplit(c: Config, a: string, t: string, d: Config, control: Control)
    requires EndsIn(c, a + t, d, control) && t != ""
    ensures Read(c, a).Some? && EndsIn(Read(c, a).value, t, d, control)
  {
    hide Passes, Count, Read;
    var s := a + t;
    assert s[..|s| - 1] == a + t[..|t| - 1];
    ReadJoin(c, a, t[..|t| - 1]);
  }

  lemma AlikeEnds(c1: Config, c2: Config, s: string, d2: Config, control: Control) returns (d1: Config)
    requires Alike(c1, c2) && !c1.skip && !c2.skip && EndsIn(c2, s, d2, control)
    ensures EndsIn(c1, s, d1, control) && Alike(d1, d2)
  {
    hide Passes, Count, Read, PendFull;
    var t := s[..|s| - 1];
    AlikeReads(c1, c2, t);
    var (b1, b2) := (Read(c1, t).value, Read(c2, t).value);
    ReadClears(c1, t);
    ReadClears(c2, t);
    CountAlike(b1, b2);
    CountKeeps(b1);
    CountKeeps(b2);
    AlikePasses(Count(b1), Count(b2), s[|s| - 1]);
    d1 := Passes(Count(b1), s[|s| - 1]).0;
  }

  function EndOutcome(control: Control): Outcome
    requires !control.Again?
  {
    if control.Next? then Completed else Stopped(control)
  }

  /** A stream that ends with such a byte. */
  lemma EndsInPieces(c: Config, s: string, pieces: seq<string>, d: Config, control: Control)
    requires EndsIn(Begin(c), s, d, control) && !control.Again?
    requires (forall i :: 0 <= i < |pieces| ==> pieces[i] != "") && Flatten(pieces) == s
    ensures
      var r := RunAll(c, pieces);
      r.outcome == EndOutcome(control) && r.at == StoppedAt(control, |s|) && Same(r.c, d)
  {
    hide Read, RunAll, Flatten, EndsIn, Same, Begin;
    assert s + "" == s;
    if control.Next? {
      EndsRead(Begin(c), s, d);
      EndsSome(Begin(c), s, d, control);
      FlattenSome(pieces);
      ReadInPieces(c, pieces);
      SameSkip(RunAll(c, pieces).c, d);
    } else {
      StopsInPieces(c, s, "", pieces, d, control);
    }
  }

  lemma EndsSome(c: Config, s: string, d: Config, control: Control)
    requires EndsIn(c, s, d, control)
    ensures s != ""
  {
  }

  lemma FlattenSome(pieces: seq<string>)
    requires Flatten(pieces) != ""
    ensures pieces != []
  {
  }

  lemma SameSkip(c: Config, d: Config)
    ensures Same(c, d.(skip := false)) ==> Same(c, d)
  {
  }
}
