/** A stream delivered to one parser in any number of buffers. */
module Stream {
  import opened Http
  import opened Trace
  import opened Machine
  import opened Split
  import opened Marks
  import opened Budget
  import opened Grammar
  import opened Execute

  /** The same configuration with a byte count that may be up to k higher. */
  predicate Ahead(c: Config, d: Config, k: nat) {
    d == c.(n := d.n, peak := d.peak) && c.n <= d.n <= c.n + k
  }

  /** The peaks of two runs, of which the second started with a byte count up to k higher: the second is not much higher,
      and the first is no higher unless it was so before. */
  predicate PeaksFit(c: Config, d: Config, r: Config, s: Config, k: nat) {
    && s.peak <= (if d.peak > r.peak + k then d.peak else r.peak + k)
    && r.peak <= (if c.peak > s.peak then c.peak else s.peak)
  }

  lemma CountAhead(c: Config, d: Config, k: nat)
    requires Ahead(c, d, k)
    ensures Ahead(Count(c), Count(d), k) && PeaksFit(c, d, Count(c), Count(d), k)
  {
  }

  lemma {:induction false} PassesAhead(c: Config, d: Config, k: nat, ch: char)
    requires Ahead(c, d, k)
    ensures Passes(c, ch).1 == Passes(d, ch).1 && Ahead(Passes(c, ch).0, Passes(d, ch).0, k)
    decreases Rank(c.ps.state)
  {
    hide PassOf;
    assert Ahead(After(c, ch), After(d, ch), k);
    if PassOf(c.ps, c.skip, ch).control.Again? {
      PassesAhead(After(c, ch), After(d, ch), k, ch);
    }
  }

  /** The byte count a run starts with decides about no more than the byte count it ends with. */
  lemma {:induction false} RunAhead(c: Config, d: Config, k: nat, data: string, p: nat)
    requires p <= |data| && Ahead(c, d, k)
    ensures
      var (r, s) := (Run(c, data, p), Run(d, data, p));
      r.outcome == s.outcome && r.at == s.at && Ahead(r.c, s.c, k) && PeaksFit(c, d, r.c, s.c, k)
    decreases |data| - p
  {
    hide Passes, Count, End;
    if p < |data| {
      CountAhead(c, d, k);
      PassesAhead(Count(c), Count(d), k, data[p]);
      var (r, control) := Passes(Count(c), data[p]);
      var s := Passes(Count(d), data[p]).0;
      if control.Next? {
        assert Run(c, data, p) == Run(r, data, p + 1) && Run(d, data, p) == Run(s, data, p + 1);
        RunAhead(r, s, k, data, p + 1);
      }
    } else {
      EndAhead(c, d, k);
    }
  }

  lemma EndAhead(c: Config, d: Config, k: nat)
    requires Ahead(c, d, k)
    ensures Ahead(End(c), End(d), k)
  {
  }

  /** The machine's own errors. */
  lemma {:induction false} RunErrors(c: Config, data: string, p: nat)
    requires p <= |data|
    ensures Run(c, data, p).outcome.Failed? ==> Run(c, data, p).outcome.errno !in {OK, HEADER_OVERFLOW}
    decreases |data| - p
  {
    hide Passes, Count;
    if p < |data| {
      PassesErrors(Count(c), data[p]);
      if Passes(Count(c), data[p]).1.Next? {
        RunErrors(Passes(Count(c), data[p]).0, data, p + 1);
      }
    }
  }

  lemma {:induction false} PassesErrors(c: Config, ch: char)
    ensures Passes(c, ch).1.Fail? ==> Passes(c, ch).1.errno !in {OK, HEADER_OVERFLOW}
    decreases Rank(c.ps.state)
  {
    PassSuits(c.ps, c.skip, ch);
    hide PassOf;
    if PassOf(c.ps, c.skip, ch).control.Again? {
      PassesErrors(After(c, ch), ch);
    }
  }

  /** The call on one buffer, seen from a run that counts every header byte once. */
  lemma NextCall(now: Config, c: Config, k: nat, data: string)
    requires now == c.(skip := false, pend := None, n := now.n, peak := now.n) && c.n <= now.n <= c.n + k && data != ""
    requires now.n <= HTTP_MAX_HEADER_SIZE && c.n <= c.peak <= HTTP_MAX_HEADER_SIZE
    ensures
      var (r, s) := (RunBuffer(c, data), RunBuffer(now, data));
      var spend := Spend(Begin(now), data, 0);
      && s == r.(c := r.c.(n := s.c.n, peak := s.c.peak)) && r.c.n <= s.c.n <= r.c.n + k
      && (spend.Over? ==> c.calls <= spend.calls <= r.c.calls && r.c.peak + k >= HTTP_MAX_HEADER_SIZE)
      && (spend.Within? && !r.outcome.Failed? ==> r.c.peak <= HTTP_MAX_HEADER_SIZE && spend.extra <= 1)
  {
    hide Run, Collecting, Spend, InHeaderLoop;
    BeginAhead(now, c, k);
    RunAhead(Begin(c), Begin(now), k, data, 0);
    SpendCuts(Begin(now), data, 0);
    SpendKeeps(Begin(now), data, 0);
    SpendRounds(Begin(now), data, 0);
  }

  lemma BeginAhead(now: Config, c: Config, k: nat)
    requires now == c.(skip := false, pend := None, n := now.n, peak := now.n) && c.n <= now.n <= c.n + k
    ensures Ahead(Begin(c), Begin(now), k) && Begin(now).calls == now.calls
    ensures Begin(now).n == Begin(now).peak == now.n && Begin(c).peak == c.peak
  {
  }

  /** What k calls achieve, compared with the byte machine on the same buffers: the same callbacks, and the same parser or
      the same error; or the budget is exceeded, after the first of its callbacks. The byte count is that of the header
      bytes since the last reset, or higher by at most one for each call, and only that may make a call exceed the limit
      when the header bytes do not. */
  ghost predicate Fed(parser: HttpParser, all: RunResult, k: nat)
    reads parser
  {
    if parser.errno == HEADER_OVERFLOW then parser.calls <= all.c.calls && all.c.peak + k > HTTP_MAX_HEADER_SIZE
    else
      && parser.calls == all.c.calls
      && if parser.errno == OK then
           && !all.outcome.Failed? && parser.rec == all.c.ps
           && all.c.peak <= HTTP_MAX_HEADER_SIZE && all.c.n <= parser.nread <= all.c.n + k
         else
           all.outcome == Failed(parser.errno)
  }

  lemma {:induction false} RunAllSnoc(c: Config, pieces: seq<string>, piece: string)
    ensures
      var front := RunAll(c, pieces);
      var last := RunBuffer(front.c, piece);
      RunAll(c, pieces + [piece]) == if front.outcome.Completed? then last.(at := front.at + last.at) else front
    decreases |pieces|
  {
    hide RunBuffer;
    var all := pieces + [piece];
    if pieces == [] {
      assert all[0] == piece && all[1..] == [];
      var r := RunBuffer(c, piece);
      assert RunAll(r.c, []) == RunResult(r.c, 0, Completed);
    } else {
      assert all[0] == pieces[0] && all[1..] == pieces[1..] + [piece];
      var first := RunBuffer(c, pieces[0]);
      if first.outcome.Completed? {
        RunAllSnoc(first.c, pieces[1..], piece);
      }
    }
  }

  lemma {:induction false} ExitUpgrades(c: Config, data: string, p: nat)
    requires p <= |data|
    ensures Run(c, data, p).outcome.Exited? ==> Run(c, data, p).c.ps.upgrade
    decreases |data| - p
  {
    hide Passes, Count;
    if p < |data| {
      PassesExit(Count(c), data[p]);
      if Passes(Count(c), data[p]).1.Next? {
        ExitUpgrades(Passes(Count(c), data[p]).0, data, p + 1);
      }
    }
  }

  lemma {:induction false} PassesExit(c: Config, ch: char)
    ensures Passes(c, ch).1.Exit? ==> Passes(c, ch).0.ps.upgrade
    decreases Rank(c.ps.state)
  {
    PassExit(c.ps, c.skip, ch);
    hide PassOf;
    if PassOf(c.ps, c.skip, ch).control.Again? {
      PassesExit(After(c, ch), ch);
    }
  }

  lemma PassExit(ps: Parser, skip: bool, ch: char)
    ensures PassOf(ps, skip, ch).control.Exit? ==> PassOf(ps, skip, ch).ps.upgrade
  {
    hide MethodChar, NameChar, FirstValueChar, ValueChar, Finish, NewMessage, FirstLetter;
    NoExits(ps, skip, ch);
  }

  lemma NoExits(ps: Parser, skip: bool, ch: char)
    ensures !MethodChar(ps, ch).control.Exit? && !FirstValueChar(ps, ch).control.Exit? && !ValueChar(ps, ch).control.Exit?
  {
    hide Redirect, MethodString, ListChar;
  }

  /** http_parser_execute on each buffer of a stream in turn, until a call reports an error or an upgrade. Unless the
      cut exposes an illegal byte, the outcome, the parser and the merged callbacks for the buffers that were fed are
      those of one buffer; and the callbacks obey the grammar whatever happens. */
  method Feed(parser: HttpParser, pieces: seq<string>) returns (fed: nat)
    requires parser.Valid() && parser.errno == OK
    requires pieces != [] && forall i :: 0 <= i < |pieces| ==> 0 < |pieces[i]| < 0x8000_0000
    modifies parser
    ensures parser.Valid()
    ensures 1 <= fed <= |pieces| && (fed < |pieces| ==> parser.errno != OK || parser.rec.upgrade)
    ensures
      var all := RunAll(old(parser.Now()), pieces[..fed]);
      var whole := RunBuffer(old(parser.Now()), Flatten(pieces[..fed]));
      && Fed(parser, all, fed)
      && (parser.errno !in {INVALID_HEADER_TOKEN, HEADER_OVERFLOW} ==> SameResult(whole, 0, all, 0))
      && (parser.errno == OK && all.outcome.Completed? ==> TraceOf(whole.c) == Merged(parser.calls))
    ensures Obeys(Begin(old(parser.Now()))) ==> PhaseAfter(parser.calls).Some?
  {
    hide Run, TraceOf, Merged, Begin, RunBuffer, Spend, Obeys, PhaseAfter, RunAll, SameResult, Same;
    ghost var start := parser.Now();
    ghost var c := start;
    fed := 0;
    NothingFed(start, pieces);
    var more := true;
    while fed < |pieces| && more
      invariant 0 <= fed <= |pieces| && parser.Valid()
      invariant fed > 0 ==> more || parser.errno != OK || parser.rec.upgrade
      invariant more ==> Resting(parser, RunAll(start, pieces[..fed]), fed)
      invariant fed > 0 ==> Fed(parser, RunAll(start, pieces[..fed]), fed)
      invariant fed == 0 ==> more
    {
      c := RunAll(start, pieces[..fed]).c;
      assert pieces[..fed + 1] == pieces[..fed] + [pieces[fed]];
      RunAllSnoc(start, pieces[..fed], pieces[fed]);
      more := FeedOne(parser, pieces[fed], c, fed);
      fed := fed + 1;
    }
    Partition(start, pieces[..fed]);
    GrammarOf(start, pieces[..fed]);
    AllMerged(start, pieces[..fed]);
    SameTrace(RunBuffer(start, Flatten(pieces[..fed])), RunAll(start, pieces[..fed]));
  }

  /** Between two calls, after the machine has done the same. */
  ghost predicate Resting(parser: HttpParser, all: RunResult, k: nat)
    reads parser
  {
    && parser.errno == OK && all.outcome.Completed?
    && parser.Now() == all.c.(skip := false, pend := None, n := parser.nread, peak := parser.nread)
    && all.c.n <= parser.nread <= all.c.n + k && all.c.n <= all.c.peak <= HTTP_MAX_HEADER_SIZE
  }

  method FeedOne(parser: HttpParser, piece: string, ghost c: Config, ghost k: nat) returns (more: bool)
    requires parser.Valid() && Resting(parser, RunResult(c, 0, Completed), k) && 0 < |piece| < 0x8000_0000
    modifies parser
    ensures parser.Valid() && Fed(parser, RunBuffer(c, piece), k + 1)
    ensures if more then Resting(parser, RunBuffer(c, piece), k + 1) else parser.errno != OK || parser.rec.upgrade
  {
    hide Run, Begin, RunBuffer, Spend;
    NextCall(parser.Now(), c, k, piece);
    RunErrors(Begin(c), piece, 0);
    BufferRun(c, piece);
    var n := parser.Execute(piece);
    more := parser.errno == OK && !parser.rec.upgrade;
    if more {
      Delivered(c, piece);
    }
  }

  lemma BufferRun(c: Config, piece: string)
    ensures RunBuffer(c, piece) == Run(Begin(c), piece, 0)
  {
  }

  lemma Delivered(c: Config, piece: string)
    requires piece != "" && !RunBuffer(c, piece).outcome.Failed? && !RunBuffer(c, piece).c.ps.upgrade
    ensures RunBuffer(c, piece).outcome.Completed? && RunBuffer(c, piece).c.pend == None
  {
    hide Run, TraceOf, Merged;
    ExitUpgrades(Begin(c), piece, 0);
    AllDelivered(c, piece);
  }

  lemma NothingFed(c: Config, pieces: seq<string>)
    ensures pieces[..0] == [] && RunAll(c, []) == RunResult(c, 0, Completed)
  {
  }

  lemma {:induction false} AllMerged(c: Config, pieces: seq<string>)
    requires pieces != [] && forall i :: 0 <= i < |pieces| ==> pieces[i] != ""
    ensures RunAll(c, pieces).outcome.Completed? ==> TraceOf(RunAll(c, pieces).c) == Merged(RunAll(c, pieces).c.calls)
    decreases |pieces|
  {
    hide Run, TraceOf, Merged, RunBuffer;
    var first := RunBuffer(c, pieces[0]);
    if first.outcome.Completed? {
      AllDelivered(c, pieces[0]);
      if pieces[1..] != [] { AllMerged(first.c, pieces[1..]); }
    }
  }

  lemma SameTrace(r: RunResult, s: RunResult)
    ensures SameResult(r, 0, s, 0) ==> TraceOf(r.c) == TraceOf(s.c)
  {
  }

  lemma GrammarOf(c: Config, pieces: seq<string>)
    requires forall i :: 0 <= i < |pieces| ==> pieces[i] != ""
    ensures Obeys(Begin(c)) ==> forall calls | calls <= RunAll(c, pieces).c.calls :: PhaseAfter(calls).Some?
  {
    hide Obeys, PhaseAfter, Run;
    if Obeys(Begin(c)) {
      AllObey(c, pieces);
      var all := RunAll(c, pieces).c.calls;
      forall calls | calls <= all ensures PhaseAfter(calls).Some? {
        PrefixObeys(all, |calls|);
        assert calls == all[..|calls|];
      }
    }
  }
}
