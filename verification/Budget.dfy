/** The header budget, exactly: where http_parser_execute counts header bytes and where it looks at the count.
    The loops over a name and over a value look only when they end, and at the end of a buffer they count one
    byte more than there was. */
module Budget {
  import opened Characters
  import opened Http
  import opened Machine
  import opened Scan
  import opened Split

  /** The budget is exceeded: the callbacks made by then and the returned count; or it is not, and the last loop has
      counted so many bytes too much. */
  datatype Spending = Over(at: nat, calls: seq<Event>) | Within(extra: nat)

  predicate InHeaderLoop(s: State) {
    s == Fields(InField) || s == Fields(InValue)
  }

  /** A byte over which one of the two loops goes on. */
  predicate LoopsOn(s: State, ch: char) {
    if s == Fields(InField) then IsToken(ch) else s == Fields(InValue) && !IsEol(ch)
  }

  /** From byte p the value loop jumps to the end of the buffer, because HTTP_MAX_HEADER_SIZE bytes hold no line end. */
  predicate JumpsOut(c: Config, data: string, p: nat) {
    && InGeneralValue(c.ps) && !c.skip && p + HTTP_MAX_HEADER_SIZE < |data|
    && forall i :: p <= i < p + HTTP_MAX_HEADER_SIZE ==> !IsEol(data[i])
  }

  /** The spending on data[p..], where c.n is the byte count before byte p. */
  function Spend(c: Config, data: string, p: nat): Spending
    requires p <= |data|
    decreases |data| - p, 1
  {
    if p == |data| then Within(0)
    else if ParsingHeader(c.ps.state) && Count(c).n > HTTP_MAX_HEADER_SIZE then Over(p, c.calls)
    else SpendFrom(Count(c), data, p)
  }

  /** The spending on data[p..] when byte p has been counted. */
  function SpendFrom(c: Config, data: string, p: nat): Spending
    requires p < |data|
    decreases |data| - p, 0
  {
    var (c', control) := Passes(c, data[p]);
    if LoopsOn(c.ps.state, data[p]) then
      if !control.Next? then Within(0)
      else if JumpsOut(c, data, p) then Over(|data|, c.calls)
      else SpendOn(c', data, p + 1)
    else if InHeaderLoop(c.ps.state) && c.n > HTTP_MAX_HEADER_SIZE then
      // the value is delivered before the count for CR, and after it for LF
      Over(p, if c.ps.state == Fields(InValue) && data[p] == CR then c'.calls else c.calls)
    else if control.Next? then Spend(c', data, p + 1)
    else Within(0)
  }

  /** The spending on data[p..] within a loop, where byte p - 1 has been looped over. */
  function SpendOn(c: Config, data: string, p: nat): Spending
    requires p <= |data|
    decreases |data| - p, 1
  {
    if p < |data| then SpendFrom(Count(c), data, p)
    else if c.n + 1 > HTTP_MAX_HEADER_SIZE then Over(p, c.calls)
    else Within(1)
  }

  /** What one call does: the callbacks it makes, the count it returns and the error it reports. */
  datatype Called = Called(calls: seq<Event>, ret: nat, errno: Errno)

  /** The end of the stream completes a body that it delimits, is silent between messages, and is an error anywhere
      else. */
  function EofCall(c: Config): Called {
    if c.ps.state == Content(BodyIdentityEof) then Called(c.calls + [MessageComplete], 0, OK)
    else if c.ps.state in {Dead, Start(StartReqOrRes), Start(StartRes), Start(StartReq)} then Called(c.calls, 0, OK)
    else Called(c.calls, 1, INVALID_EOF_STATE)
  }

  function CallOf(c: Config, data: string): Called {
    if data == "" then EofCall(c)
    else
      match Spend(Begin(c), data, 0)
      case Over(at, calls) => Called(calls, at, HEADER_OVERFLOW)
      case Within(_) =>
        var r := RunBuffer(c, data);
        Called(r.c.calls, r.at, if r.outcome.Failed? then r.outcome.errno else OK)
  }

  // Overflow against the byte machine

  lemma {:induction false} PassesGrow(c: Config, ch: char)
    ensures c.calls <= Passes(c, ch).0.calls
    decreases Rank(c.ps.state)
  {
    hide PassOf;
    assert c.calls <= After(c, ch).calls;
    if PassOf(c.ps, c.skip, ch).control.Again? {
      PassesGrow(After(c, ch), ch);
    }
  }

  /** Callbacks are only added. */
  lemma {:induction false} RunGrows(c: Config, data: string, p: nat)
    requires p <= |data|
    ensures c.calls <= Run(c, data, p).c.calls
    decreases |data| - p, 1
  {
    hide Passes;
    if p < |data| {
      ResumeGrows(Count(c), data, p);
    }
  }

  lemma {:induction false} ResumeGrows(c: Config, data: string, p: nat)
    requires p < |data|
    ensures c.calls <= Resume(c, data, p).c.calls && Passes(c, data[p]).0.calls <= Resume(c, data, p).c.calls
    decreases |data| - p, 0
  {
    hide Passes, Count;
    PassesGrow(c, data[p]);
    if Passes(c, data[p]).1.Next? {
      RunGrows(Passes(c, data[p]).0, data, p + 1);
    }
  }

  lemma {:induction false} RunAllGrows(c: Config, pieces: seq<string>)
    ensures c.calls <= RunAll(c, pieces).c.calls
    decreases |pieces|
  {
    hide Run;
    if pieces != [] {
      RunGrows(Begin(c), pieces[0], 0);
      var first := RunBuffer(c, pieces[0]);
      if first.outcome.Completed? {
        RunAllGrows(first.c, pieces[1..]);
      }
    }
  }

  /** What an overflow has to do with a run: the callbacks made by then are the first ones of the run, and the run counts
      beyond the limit; or it counts just up to the limit, and ends inside a name or value, which is counted one byte too
      long. */
  predicate Cut(s: Spending, r: RunResult, c: Config, p: nat, size: nat) {
    s.Over? ==>
      && p <= s.at <= size && c.calls <= s.calls <= r.c.calls
      && (r.c.peak > HTTP_MAX_HEADER_SIZE
          || (r.c.peak == HTTP_MAX_HEADER_SIZE && s.at == size && r.outcome.Completed? && InHeaderLoop(r.c.ps.state)))
  }

  lemma {:induction false} SpendCuts(c: Config, data: string, p: nat)
    requires p <= |data| && c.n <= c.peak
    ensures Cut(Spend(c, data, p), Run(c, data, p), c, p, |data|)
    decreases |data| - p, 1
  {
    hide Passes, Resume, SpendFrom;
    if p < |data| {
      RunGrows(c, data, p);
      CountKept(c);
      CountGrows(c);
      if !(ParsingHeader(c.ps.state) && Count(c).n > HTTP_MAX_HEADER_SIZE) {
        SpendFromCuts(Count(c), data, p);
      }
    }
  }

  lemma CountGrows(c: Config)
    ensures InHeaderLoop(c.ps.state) ==> Count(c).n > 0
  {
  }

  lemma CountKept(c: Config)
    ensures Count(c).ps == c.ps && Count(c).calls == c.calls && Count(c).pend == c.pend && Count(c).skip == c.skip
    ensures Count(c).peak >= Count(c).n >= c.n && (c.n <= c.peak ==> Count(c).peak >= c.peak)
  {
  }

  lemma {:induction false} SpendFromCuts(c: Config, data: string, p: nat)
    requires p < |data| && c.n <= c.peak && (InHeaderLoop(c.ps.state) ==> c.n > 0)
    ensures Cut(SpendFrom(c, data, p), Resume(c, data, p), c, p, |data|)
    decreases |data| - p, 0
  {
    hide Passes, Count, IsToken, JumpsOut;
    ResumeGrows(c, data, p);
    PassesGrow(c, data[p]);
    var (c', control) := Passes(c, data[p]);
    if LoopsOn(c.ps.state, data[p]) {
      LoopKeeps(c, data[p]);
      if control.Next? && JumpsOut(c, data, p) {
        JumpExceeds(c, data, p);
      } else if control.Next? {
        SpendOnCuts(c', data, p + 1);
      }
    } else if control.Next? {
      SpendCuts(c', data, p + 1);
    }
  }

  lemma {:induction false} SpendOnCuts(c: Config, data: string, p: nat)
    requires p <= |data| && c.n <= c.peak && InHeaderLoop(c.ps.state)
    ensures Cut(SpendOn(c, data, p), Run(c, data, p), c, p, |data|)
    decreases |data| - p, 1
  {
    hide Passes, Resume, SpendFrom;
    RunGrows(c, data, p);
    if p < |data| {
      CountKept(c);
      CountGrows(c);
      SpendFromCuts(Count(c), data, p);
    }
  }

  /** Jumping over HTTP_MAX_HEADER_SIZE bytes of a header value exceeds the budget. */
  lemma JumpExceeds(c: Config, data: string, p: nat)
    requires p < |data| && JumpsOut(c, data, p) && Passes(c, data[p]).1.Next? && 0 < c.n <= c.peak
    ensures Resume(c, data, p).c.peak > HTTP_MAX_HEADER_SIZE
  {
    GeneralLegal(c, data[p]);
    hide PassOf, After, Resume, Run, Passes;
    JumpLeads(c, data, p, HTTP_MAX_HEADER_SIZE);
  }

  lemma GeneralLegal(c: Config, ch: char)
    requires InGeneralValue(c.ps) && !c.skip && Passes(c, ch).1.Next? && !IsEol(ch)
    ensures c.ps.lenient || IsHeaderChar(ch)
  {
    ValueEnd(c, ch);
    hide PassOf;
  }

  // A run within the budget

  /** A run that does not exceed the budget, nor fail of its own, stays within the limit. */
  predicate Kept(s: Spending, r: RunResult, floor: nat) {
    s.Within? && !r.outcome.Failed? ==> r.c.peak <= if floor > HTTP_MAX_HEADER_SIZE then floor else HTTP_MAX_HEADER_SIZE
  }

  lemma {:induction false} SpendKeeps(c: Config, data: string, p: nat)
    requires p <= |data| && c.n <= HTTP_MAX_HEADER_SIZE && c.n <= c.peak
    ensures Kept(Spend(c, data, p), Run(c, data, p), c.peak)
    decreases |data| - p, 1
  {
    hide Passes, Resume, SpendFrom;
    if p < |data| && !(ParsingHeader(c.ps.state) && Count(c).n > HTTP_MAX_HEADER_SIZE) {
      SpendFromKeeps(Count(c), data, p, c.peak);
    }
  }

  /** Inside a loop the count may run above the limit for a while. */
  lemma {:induction false} SpendFromKeeps(c: Config, data: string, p: nat, floor: nat)
    requires p < |data| && c.n <= c.peak && (c.n <= HTTP_MAX_HEADER_SIZE || InHeaderLoop(c.ps.state))
    requires c.peak <= floor || c.peak <= HTTP_MAX_HEADER_SIZE || c.peak == c.n
    ensures Kept(SpendFrom(c, data, p), Resume(c, data, p), floor)
    ensures SpendFrom(c, data, p).Within? && !Resume(c, data, p).outcome.Failed? ==> c.n <= HTTP_MAX_HEADER_SIZE
    decreases |data| - p, 0
  {
    hide Passes, Count, IsToken, JumpsOut;
    var (c', control) := Passes(c, data[p]);
    if LoopsOn(c.ps.state, data[p]) {
      LoopKeeps(c, data[p]);
      if control.Next? && !JumpsOut(c, data, p) {
        SpendOnKeeps(c', data, p + 1, floor);
      }
    } else if control.Next? && !(InHeaderLoop(c.ps.state) && c.n > HTTP_MAX_HEADER_SIZE) {
      SpendKeeps(c', data, p + 1);
    }
  }

  lemma {:induction false} SpendOnKeeps(c: Config, data: string, p: nat, floor: nat)
    requires p <= |data| && c.n <= c.peak && InHeaderLoop(c.ps.state)
    requires c.peak <= floor || c.peak <= HTTP_MAX_HEADER_SIZE || c.peak == c.n
    ensures Kept(SpendOn(c, data, p), Run(c, data, p), floor)
    ensures SpendOn(c, data, p).Within? && !Run(c, data, p).outcome.Failed? ==> c.n <= HTTP_MAX_HEADER_SIZE
    decreases |data| - p, 1
  {
    hide Passes, Resume, SpendFrom;
    if p < |data| {
      SpendFromKeeps(Count(c), data, p, floor);
    }
  }

  /** A byte that a loop goes over leaves the state. */
  lemma LoopKeeps(c: Config, ch: char)
    requires LoopsOn(c.ps.state, ch)
    ensures Passes(c, ch).1.Next? || Passes(c, ch).1.Fail?
    ensures Passes(c, ch).1.Next? ==>
      var c' := Passes(c, ch).0;
      c'.ps.state == c.ps.state && c'.n == c.n && c'.peak == c.peak && c'.calls == c.calls
  {
    if c.ps.state == Fields(InField) {
      NameByte(c, ch);
      hide PassOf;
    } else {
      ValueLoopByte(c, ch);
      hide PassOf;
      assert c.calls + [] == c.calls;
    }
  }

  lemma ValueLoopByte(c: Config, ch: char)
    requires c.ps.state == Fields(InValue) && !IsEol(ch)
    ensures
      var r := PassOf(c.ps, c.skip, ch);
      r.control.Fail? || (r.control.Next? && r.ps.state == c.ps.state && r.effect == Byte(Kind.Value) && !r.reset)
  {
    hide StartPass, StatusLinePass, TargetPass, VersionPass, EndingPass, ChunkPass, ContentPass, ListChar, FinishFlags;
  }

  // The byte counted too much

  /** Only a run that ends inside a name or a value is counted one byte too long. */
  predicate Rounded(s: Spending, r: RunResult) {
    s.Within? ==> s.extra <= 1 && (s.extra == 1 ==> InHeaderLoop(r.c.ps.state))
  }

  lemma {:induction false} SpendRounds(c: Config, data: string, p: nat)
    requires p <= |data|
    ensures Rounded(Spend(c, data, p), Run(c, data, p))
    decreases |data| - p, 1
  {
    hide Passes, Resume, SpendFrom, InHeaderLoop;
    if p < |data| { SpendFromRounds(Count(c), data, p); }
  }

  lemma {:induction false} SpendFromRounds(c: Config, data: string, p: nat)
    requires p < |data|
    ensures Rounded(SpendFrom(c, data, p), Resume(c, data, p))
    decreases |data| - p, 0
  {
    hide Passes, Count, IsToken, JumpsOut;
    var (c', control) := Passes(c, data[p]);
    if LoopsOn(c.ps.state, data[p]) {
      LoopKeeps(c, data[p]);
      if control.Next? { SpendOnRounds(c', data, p + 1); }
    } else if control.Next? {
      SpendRounds(c', data, p + 1);
    }
  }

  lemma {:induction false} SpendOnRounds(c: Config, data: string, p: nat)
    requires p <= |data| && InHeaderLoop(c.ps.state)
    ensures Rounded(SpendOn(c, data, p), Run(c, data, p))
    decreases |data| - p, 1
  {
    hide Passes, Resume, SpendFrom;
    if p < |data| { SpendFromRounds(Count(c), data, p); }
  }

  /** A call that stays within the limit is what its run is; at the limit too, unless it ends inside a name or value. */
  lemma CallWithin(c: Config, data: string)
    requires data != "" && c.n == c.peak && RunBuffer(c, data).c.peak <= HTTP_MAX_HEADER_SIZE
    requires RunBuffer(c, data).c.peak < HTTP_MAX_HEADER_SIZE || !RunBuffer(c, data).outcome.Completed? || !InHeaderLoop(RunBuffer(c, data).c.ps.state)
    ensures Spend(Begin(c), data, 0).Within?
    ensures RunBuffer(c, data).outcome.Completed? && !InHeaderLoop(RunBuffer(c, data).c.ps.state) ==> Spend(Begin(c), data, 0) == Within(0)
    ensures
      var r := RunBuffer(c, data);
      CallOf(c, data) == Called(r.c.calls, r.at, if r.outcome.Failed? then r.outcome.errno else OK)
  {
    hide Run, Spend, InHeaderLoop;
    SpendCuts(Begin(c), data, 0);
    SpendRounds(Begin(c), data, 0);
  }

  /** The count at the end of a name, and at the end of a value, exceeds the budget. */
  lemma NameExceeds(c: Config, data: string, q: nat)
    requires q < |data| && c.ps.state == Fields(InField) && !IsToken(data[q]) && c.n > HTTP_MAX_HEADER_SIZE
    ensures SpendFrom(c, data, q) == Over(q, c.calls)
  {
    hide Passes, Spend, SpendOn;
  }

  lemma ValueExceeds(c: Config, data: string, q: nat)
    requires q < |data| && c.ps.state == Fields(InValue) && IsEol(data[q]) && c.n > HTTP_MAX_HEADER_SIZE
    ensures SpendFrom(c, data, q) == Over(q, if data[q] == CR then After(c, CR).calls else c.calls)
  {
    ValueEnd(c, data[q]);
    hide PassOf, Spend, SpendOn, After;
    if data[q] == CR {
      assert Passes(c, CR) == (After(c, CR), Control.Next);
    }
  }

  // A name that is too long

  /** The spending on a name of at least two bytes that fills a buffer, or that is followed by a byte that ends it: the
      same bytes exceed the budget at the end of the buffer, where the call returns its whole length, and at the byte that
      ends the name, where it does not. */
  lemma {:induction false} NameSpending(c: Config, name: string, rest: string, p: nat)
    requires c.ps.state == Fields(InField) && p < |name| && (forall i | 0 <= i < |name| :: IsToken(name[i]))
    requires rest != "" ==> !IsToken(rest[0])
    ensures c.n + (|name| - p) > HTTP_MAX_HEADER_SIZE ==> SpendFrom(c, name + rest, p) == Over(|name|, c.calls)
    ensures rest == "" && c.n + (|name| - p) <= HTTP_MAX_HEADER_SIZE ==> SpendFrom(c, name + rest, p) == Within(1)
    decreases |name| - p
  {
    var data := name + rest;
    assert data[p] == name[p];
    NameByte(c, data[p]);
    NoNameJump(c, data, p);
    hide PassOf, IsToken, JumpsOut;
    var c' := After(c, data[p]);
    assert Passes(c, data[p]) == (c', Control.Next);
    assert Count(c').n == c.n + 1 && Count(c').calls == c.calls && Count(c').ps.state == Fields(InField);
    if p + 1 < |name| {
      NameSpending(Count(c'), name, rest, p + 1);
    } else if rest != "" {
      assert data[p + 1] == rest[0];
      if c.n + 1 > HTTP_MAX_HEADER_SIZE {
        NameExceeds(Count(c'), data, p + 1);
      }
    }
  }

  lemma NoNameJump(c: Config, data: string, p: nat)
    requires c.ps.state == Fields(InField)
    ensures !JumpsOut(c, data, p)
  {
  }

  // The spending along the passes of the machine

  /** A byte outside the loops, or one that ends them within the limit, that is consumed. */
  lemma SpendNext(c: Config, data: string, p: nat)
    requires p < |data| && PassOf(c.ps, c.skip, data[p]).control.Next?
    requires !LoopsOn(c.ps.state, data[p]) && c.n <= HTTP_MAX_HEADER_SIZE
    ensures SpendFrom(c, data, p) == Spend(After(c, data[p]), data, p + 1)
    ensures p + 1 == |data| ==> SpendFrom(c, data, p) == Within(0)
  {
    hide PassOf, After, LoopsOn;
    assert Passes(c, data[p]) == (After(c, data[p]), Control.Next);
  }

  /** No byte is looked at again inside a loop. */
  lemma AgainOutside(ps: Parser, skip: bool, ch: char)
    requires PassOf(ps, skip, ch).control.Again?
    ensures !InHeaderLoop(PassOf(ps, skip, ch).ps.state) && !LoopsOn(ps.state, ch)
  {
    hide MethodChar, NameChar, FirstValueChar, ValueChar, Finish, NewMessage, FirstLetter;
    NoLoopAgain(ps, skip, ch);
  }

  lemma NoLoopAgain(ps: Parser, skip: bool, ch: char)
    ensures LoopsOn(ps.state, ch) ==> !PassOf(ps, skip, ch).control.Again?
  {
    if LoopsOn(ps.state, ch) {
      var c := Config(ps, skip, 0, 0, [], None);
      if ps.state == Fields(InField) { NameByte(c, ch); } else { ValueLoopByte(c, ch); }
    }
    hide PassOf, LoopsOn;
  }

  lemma SpendAgain(c: Config, data: string, p: nat)
    requires p < |data| && PassOf(c.ps, c.skip, data[p]).control.Again? && c.n <= HTTP_MAX_HEADER_SIZE
    ensures SpendFrom(c, data, p) == SpendFrom(After(c, data[p]), data, p)
  {
    AgainOutside(c.ps, c.skip, data[p]);
    hide PassOf, Spend;
    assert Passes(c, data[p]) == Passes(After(c, data[p]), data[p]);
  }

  lemma SpendStop(c: Config, data: string, p: nat)
    requires p < |data| && (PassOf(c.ps, c.skip, data[p]).control.Exit? || PassOf(c.ps, c.skip, data[p]).control.Fail?)
    requires LoopsOn(c.ps.state, data[p]) || c.n <= HTTP_MAX_HEADER_SIZE
    ensures SpendFrom(c, data, p) == Within(0)
  {
    hide PassOf, After, Spend, LoopsOn;
    assert Passes(c, data[p]) == (After(c, data[p]), PassOf(c.ps, c.skip, data[p]).control);
  }

  /** A loop going over a byte. */
  lemma SpendLoop(c: Config, data: string, p: nat)
    requires p < |data| && LoopsOn(c.ps.state, data[p]) && PassOf(c.ps, c.skip, data[p]).control.Next? && !JumpsOut(c, data, p)
    ensures SpendFrom(c, data, p) == SpendOn(After(c, data[p]), data, p + 1)
  {
    hide PassOf, After, SpendOn, LoopsOn, JumpsOut;
    assert Passes(c, data[p]) == (After(c, data[p]), Control.Next);
  }

  /** A jump over m bytes of a header value. */
  lemma {:induction false} SpendJump(c: Config, data: string, p: nat, m: nat)
    requires InGeneralValue(c.ps) && 0 < m && p + m <= |data| && !JumpsOut(c, data, p) && c.n <= c.peak
    requires c.ps.lenient || c.skip || IsHeaderChar(data[p])
    requires forall i :: p <= i < p + m ==> !IsEol(data[i])
    ensures SpendFrom(c, data, p) == SpendOn(Jump(c, m, data[p..p + m]), data, p + m)
    decreases m
  {
    hide PassOf, After, SpendFrom, JumpsOut;
    GeneralByte(c, data[p]);
    SpendLoop(c, data, p);
    assert data[p..p + 1] == [data[p]];
    var c1 := Jump(c, 1, data[p..p + 1]);
    if m > 1 {
      NoSecondJump(Count(c1), data, p + 1);
      SpendJump(Count(c1), data, p + 1, m - 1);
      assert Held(c.pend) + data[p..p + 1] + data[p + 1..p + m] == Held(c.pend) + data[p..p + m];
      assert Jump(Count(c1), m - 1, data[p + 1..p + m]) == Jump(c, m, data[p..p + m]);
    }
  }

  lemma NoSecondJump(c: Config, data: string, p: nat)
    requires c.skip
    ensures !JumpsOut(c, data, p)
  {
  }

  /** Body bytes cost nothing. */
  lemma {:induction false} SpendBody(c: Config, data: string, p: nat, m: nat)
    requires Consumes(c.ps.state) && 0 < m < c.ps.length && p + m <= |data| && !c.skip && c.n <= c.peak && c.n <= HTTP_MAX_HEADER_SIZE
    ensures
      var c' := Plain(c, m, data[p..p + m]);
      SpendFrom(c, data, p) == if p + m < |data| then SpendFrom(c', data, p + m) else Within(0)
    decreases m
  {
    hide PassOf, After, SpendFrom;
    BodyByte(c, data[p]);
    SpendNext(c, data, p);
    assert data[p..p + 1] == [data[p]];
    var c1 := Plain(c, 1, data[p..p + 1]);
    CountBody(c1);
    if m > 1 {
      SpendBody(c1, data, p + 1, m - 1);
      assert Held(c.pend) + data[p..p + 1] + data[p + 1..p + m] == Held(c.pend) + data[p..p + m];
      assert Plain(c1, m - 1, data[p + 1..p + m]) == Plain(c, m, data[p..p + m]);
    }
  }

  lemma SpendBodyEnd(c: Config, data: string, p: nat, q: nat)
    requires p <= q < |data| && Consumes(c.ps.state) && c.ps.length == q - p + 1 && !c.skip && c.n <= c.peak && c.n <= HTTP_MAX_HEADER_SIZE
    ensures
      var c' := BodyDone(c, data[p..q + 1]);
      SpendFrom(c, data, p) == if c.ps.state.Chunk? then Spend(c', data, q + 1) else SpendFrom(c', data, q)
    ensures c.ps.state.Chunk? && q + 1 == |data| ==> SpendFrom(c, data, p) == Within(0)
  {
    hide PassOf, After, SpendFrom, Spend;
    var c1 := c;
    if p < q {
      SpendBody(c, data, p, q - p);
      c1 := Plain(c, q - p, data[p..q]);
      assert Held(c.pend) + data[p..q] + [data[q]] == Held(c.pend) + data[p..q + 1];
    } else {
      assert data[p..q + 1] == [data[q]];
    }
    LastBodyByte(c1, data[q]);
    assert After(c1, data[q]) == BodyDone(c, data[p..q + 1]);
    if c.ps.state.Chunk? { SpendNext(c1, data, q); } else { SpendAgain(c1, data, q); }
  }

  lemma {:induction false} SpendEof(c: Config, data: string, p: nat, m: nat)
    requires c.ps.state == Content(BodyIdentityEof) && 0 < m && p + m == |data| && !c.skip && c.n <= c.peak && c.n <= HTTP_MAX_HEADER_SIZE
    ensures SpendFrom(c, data, p) == Within(0)
    decreases m
  {
    hide PassOf, After, SpendFrom;
    EofByte(c, data[p]);
    SpendNext(c, data, p);
    if m > 1 {
      var c1 := After(c, data[p]);
      assert Count(c1) == c1;
      SpendEof(c1, data, p + 1, m - 1);
    }
  }
}
