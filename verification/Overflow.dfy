/** The budget exceeded without an error status: http_parser_execute then returns the length of the whole buffer, as if all
    was well. When it does so, in terms of the state before the call and the text of the buffer. */
module Overflow {
  import opened Http
  import opened Machine
  import opened Budget

  /** The byte machine before byte q, if it is in c before byte p and stops at none between them. */
  function Comes(c: Config, data: string, p: nat, q: nat): Option<Config>
    requires p <= q <= |data|
    decreases q - p
  {
    if p == q then Some(c)
    else
      var (c', control) := Passes(Count(c), data[p]);
      if control.Next? then Comes(c', data, p + 1, q) else None
  }

  /** The next byte does not exceed the budget. */
  predicate HasRoom(c: Config) {
    ParsingHeader(c.ps.state) ==> c.n < HTTP_MAX_HEADER_SIZE
  }

  /** The plain count of the header bytes does not pass the limit up to byte k. */
  predicate RoomUpTo(c: Config, data: string, p: nat, k: nat)
    requires p <= k <= |data|
  {
    forall i | p <= i <= k :: Comes(c, data, p, i).Some? ==> HasRoom(Comes(c, data, p, i).value)
  }

  /** A name or value that is being read before byte p goes on to byte j. There either the buffer ends, and the limit is
      reached; or it is an unrecognised value, and the next HTTP_MAX_HEADER_SIZE bytes hold no line end. */
  predicate RunsOut(c: Config, data: string, p: nat, j: nat) {
    && p <= j <= |data| && InHeaderLoop(c.ps.state)
    && (forall i | p <= i < j :: LoopsOn(c.ps.state, data[i]))
    && Comes(c, data, p, j).Some?
    && var d := Comes(c, data, p, j).value;
       if j == |data| then d.n >= HTTP_MAX_HEADER_SIZE else JumpsOut(d, data, j) && Comes(c, data, p, j + 1).Some?
  }

  /** The overflow is silent: in a name or value that begins, or goes on, with a byte within the limit, and that is never
      seen to end. */
  predicate SilentAt(c: Config, data: string, p: nat, k: nat, j: nat) {
    && p <= k < |data| && RoomUpTo(c, data, p, k)
    && Comes(c, data, p, k).Some? && RunsOut(Comes(c, data, p, k).value, data, k, j)
  }

  ghost predicate Silent(c: Config, data: string, p: nat) {
    exists k, j :: SilentAt(c, data, p, k, j)
  }

  /** The same from the middle of a name or value, which is only counted at its end. */
  ghost predicate SilentWithin(c: Config, data: string, p: nat) {
    Silent(c, data, p) || exists j :: RunsOut(c, data, p, j)
  }

  /** The call returns the length of its buffer. */
  predicate Quiet(s: Spending, data: string) {
    s.Over? && s.at == |data|
  }

  lemma ComesOne(c: Config, data: string, p: nat, q: nat)
    requires p < q <= |data|
    ensures
      var (c', control) := Passes(Count(c), data[p]);
      Comes(c, data, p, q) == if control.Next? then Comes(c', data, p + 1, q) else None
    ensures Comes(c, data, p, p) == Some(c)
  {
    hide Passes, Count;
  }

  /** One byte on, seen from a name or value that goes on. */
  lemma RunsOutOne(c: Config, data: string, p: nat, j: nat)
    requires p < |data| && LoopsOn(c.ps.state, data[p]) && Passes(Count(c), data[p]).1.Next? && p < j
    ensures RunsOut(c, data, p, j) <==> RunsOut(Passes(Count(c), data[p]).0, data, p + 1, j)
  {
    hide Passes, Count, Comes, JumpsOut, LoopsOn, InHeaderLoop;
    LoopStates(c, data, p);
    CountKept(c);
    LoopKeeps(Count(c), data[p]);
    if j <= |data| { ComesOne(c, data, p, j); }
    if j < |data| { ComesOne(c, data, p, j + 1); }
  }

  lemma RoomOne(c: Config, data: string, p: nat, k: nat)
    requires p < k <= |data| && Passes(Count(c), data[p]).1.Next?
    ensures RoomUpTo(c, data, p, k) <==> HasRoom(c) && RoomUpTo(Passes(Count(c), data[p]).0, data, p + 1, k)
  {
    hide Passes, Count, HasRoom;
    ComesOne(c, data, p, k);
    var (c', q) := (Passes(Count(c), data[p]).0, p + 1);
    if HasRoom(c) && RoomUpTo(c', data, q, k) {
      forall i | p <= i <= k && Comes(c, data, p, i).Some? ensures HasRoom(Comes(c, data, p, i).value) {
        if i > p { ComesOne(c, data, p, i); }
      }
    }
    if RoomUpTo(c, data, p, k) {
      assert Comes(c, data, p, p) == Some(c);
      forall i | q <= i <= k && Comes(c', data, q, i).Some? ensures HasRoom(Comes(c', data, q, i).value) {
        ComesOne(c, data, p, i);
      }
    }
  }

  lemma SilentAtOne(c: Config, data: string, p: nat, k: nat, j: nat)
    requires p < |data| && Passes(Count(c), data[p]).1.Next? && p < k
    ensures SilentAt(c, data, p, k, j) <==> HasRoom(c) && SilentAt(Passes(Count(c), data[p]).0, data, p + 1, k, j)
  {
    hide Passes, Count, HasRoom, RunsOut, Comes, RoomUpTo;
    if k < |data| {
      ComesOne(c, data, p, k);
      RoomOne(c, data, p, k);
    }
  }

  /** Where the machine stops nothing is silent. */
  lemma NoneAfterStop(c: Config, data: string, p: nat)
    requires p < |data| && !Passes(Count(c), data[p]).1.Next?
    ensures !SilentWithin(c, data, p)
  {
    hide Passes, Count, HasRoom, JumpsOut, LoopsOn;
    forall q | p < q <= |data| ensures Comes(c, data, p, q) == None { ComesOne(c, data, p, q); }
    forall j ensures !RunsOut(c, data, p, j) {}
    forall k, j ensures !SilentAt(c, data, p, k, j) {}
  }

  /** A name or value that ends with byte p, or no name or value. */
  lemma NotFromHere(c: Config, data: string, p: nat, j: nat)
    requires p < |data| && !LoopsOn(c.ps.state, data[p])
    ensures !RunsOut(c, data, p, j)
  {
    hide Passes, Count, LoopsOn, JumpsOut;
    assert Comes(c, data, p, p) == Some(c);
    LoopStates(c, data, p);
  }

  lemma SilentElsewhere(c: Config, data: string, p: nat)
    requires p < |data| && !LoopsOn(c.ps.state, data[p]) && Passes(Count(c), data[p]).1.Next?
    ensures SilentWithin(c, data, p) <==> HasRoom(c) && Silent(Passes(Count(c), data[p]).0, data, p + 1)
    ensures SilentWithin(c, data, p) <==> Silent(c, data, p)
  {
    hide Passes, Count, HasRoom, RunsOut, SilentAt, LoopsOn;
    var c' := Passes(Count(c), data[p]).0;
    forall j ensures !RunsOut(c, data, p, j) { NotFromHere(c, data, p, j); }
    if Silent(c, data, p) {
      var k, j :| SilentAt(c, data, p, k, j);
      NotAtOnce(c, data, p, k, j);
      SilentAtOne(c, data, p, k, j);
    }
    if HasRoom(c) && Silent(c', data, p + 1) {
      var k, j :| SilentAt(c', data, p + 1, k, j);
      SilentStarts(c', data, p + 1, k, j);
      SilentAtOne(c, data, p, k, j);
    }
  }

  lemma SilentStarts(c: Config, data: string, p: nat, k: nat, j: nat)
    requires SilentAt(c, data, p, k, j)
    ensures p <= k < |data| && HasRoom(c) && (k == p ==> RunsOut(c, data, p, j))
  {
    hide HasRoom, RunsOut;
    assert Comes(c, data, p, p) == Some(c);
  }

  lemma NotAtOnce(c: Config, data: string, p: nat, k: nat, j: nat)
    requires SilentAt(c, data, p, k, j) && !RunsOut(c, data, p, j)
    ensures p < k && HasRoom(c)
  {
    SilentStarts(c, data, p, k, j);
  }

  lemma AtOnce(c: Config, data: string, p: nat, j: nat)
    requires p < |data| && HasRoom(c) && RunsOut(c, data, p, j)
    ensures SilentAt(c, data, p, p, j)
  {
    hide HasRoom, RunsOut;
    assert Comes(c, data, p, p) == Some(c);
  }

  /** A name or value that goes on with byte p. */
  lemma SilentFurther(c: Config, data: string, p: nat)
    requires p < |data| && LoopsOn(c.ps.state, data[p]) && Passes(Count(c), data[p]).1.Next? && !JumpsOut(c, data, p)
    ensures SilentWithin(c, data, p) <==> SilentWithin(Passes(Count(c), data[p]).0, data, p + 1)
  {
    hide Passes, Count, HasRoom, RunsOut, SilentAt, LoopsOn, JumpsOut;
    SilentForward(c, data, p);
    SilentBackward(c, data, p, p + 1);
  }

  lemma SilentForward(c: Config, data: string, p: nat)
    requires p < |data| && LoopsOn(c.ps.state, data[p]) && Passes(Count(c), data[p]).1.Next? && !JumpsOut(c, data, p)
    ensures SilentWithin(c, data, p) ==> SilentWithin(Passes(Count(c), data[p]).0, data, p + 1)
  {
    hide Passes, Count, HasRoom, RunsOut, SilentAt, LoopsOn, JumpsOut;
    NotJumpingHere(c, data, p);
    if j :| RunsOut(c, data, p, j) {
      RunsOutStarts(c, data, p, j);
      RunsOutOne(c, data, p, j);
    } else if Silent(c, data, p) {
      var k, j :| SilentAt(c, data, p, k, j);
      NotAtOnce(c, data, p, k, j);
      SilentAtOne(c, data, p, k, j);
    }
  }

  lemma SilentBackward(c: Config, data: string, p: nat, q: nat)
    requires p < |data| && LoopsOn(c.ps.state, data[p]) && Passes(Count(c), data[p]).1.Next? && q == p + 1
    ensures SilentWithin(Passes(Count(c), data[p]).0, data, q) ==> SilentWithin(c, data, p)
  {
    LoopCounts(c, data[p]);
    hide Passes, Count, HasRoom, RunsOut, SilentAt, LoopsOn, JumpsOut;
    var c' := Passes(Count(c), data[p]).0;
    if j :| RunsOut(c', data, q, j) {
      RunsOutStarts(c', data, q, j);
      RunsOutOne(c, data, p, j);
    } else if Silent(c', data, q) {
      var k, j :| SilentAt(c', data, q, k, j);
      SilentStarts(c', data, q, k, j);
      SilentAtOne(c, data, p, k, j);
    }
  }

  lemma RunsOutStarts(c: Config, data: string, p: nat, j: nat)
    requires RunsOut(c, data, p, j)
    ensures p <= j <= |data|
  {
  }

  lemma NotJumpingHere(c: Config, data: string, p: nat)
    requires p < |data| && !JumpsOut(c, data, p)
    ensures !RunsOut(c, data, p, p)
  {
    hide JumpsOut;
  }

  /** In a name or value the count only grows. */
  lemma LoopCounts(c: Config, ch: char)
    requires LoopsOn(c.ps.state, ch) && Passes(Count(c), ch).1.Next?
    ensures HasRoom(Passes(Count(c), ch).0) ==> HasRoom(c)
  {
    LoopKeeps(Count(c), ch);
    hide Passes;
  }

  lemma JumpingHere(c: Config, data: string, p: nat)
    requires p < |data| && LoopsOn(c.ps.state, data[p]) && JumpsOut(c, data, p) && Passes(Count(c), data[p]).1.Next?
    ensures SilentWithin(c, data, p)
  {
    hide Passes, Count, LoopsOn, JumpsOut;
    var c' := Passes(Count(c), data[p]).0;
    LoopStates(c, data, p);
    ComesOne(c, data, p, p + 1);
    assert Comes(c', data, p + 1, p + 1) == Some(c');
    assert RunsOut(c, data, p, p);
  }

  lemma LoopStates(c: Config, data: string, p: nat)
    requires p < |data|
    ensures JumpsOut(Count(c), data, p) == JumpsOut(c, data, p)
    ensures JumpsOut(c, data, p) ==> LoopsOn(c.ps.state, data[p])
    ensures LoopsOn(c.ps.state, data[p]) ==> InHeaderLoop(c.ps.state)
    ensures InHeaderLoop(c.ps.state) ==> (HasRoom(c) <==> Count(c).n <= HTTP_MAX_HEADER_SIZE)
    ensures HasRoom(c) <==> !(ParsingHeader(c.ps.state) && Count(c).n > HTTP_MAX_HEADER_SIZE)
  {
    CountKept(c);
  }

  lemma {:induction false} SpendQuiet(c: Config, data: string, p: nat)
    requires p <= |data|
    ensures Quiet(Spend(c, data, p), data) <==> Silent(c, data, p)
    decreases |data| - p, 2
  {
    hide Passes, Count, RunsOut, RoomUpTo, Comes, SpendFrom;
    if p < |data| {
      LoopStates(c, data, p);
      if HasRoom(c) {
        SpendFromQuiet(c, data, p);
        WithinIsSilent(c, data, p);
      } else {
        NoRoomNow(c, data, p);
      }
    }
  }

  lemma WithinIsSilent(c: Config, data: string, p: nat)
    requires p < |data| && HasRoom(c)
    ensures SilentWithin(c, data, p) <==> Silent(c, data, p)
  {
    hide HasRoom, RunsOut, SilentAt;
    if j :| RunsOut(c, data, p, j) { AtOnce(c, data, p, j); }
  }

  lemma NoRoomNow(c: Config, data: string, p: nat)
    requires !HasRoom(c)
    ensures !Silent(c, data, p)
  {
    hide HasRoom, SilentAt;
    if Silent(c, data, p) {
      var k, j :| SilentAt(c, data, p, k, j);
      SilentStarts(c, data, p, k, j);
    }
  }

  lemma {:induction false} SpendFromQuiet(c: Config, data: string, p: nat)
    requires p < |data| && (HasRoom(c) || InHeaderLoop(c.ps.state))
    ensures Quiet(SpendFrom(Count(c), data, p), data) <==> SilentWithin(c, data, p)
    decreases |data| - p, 1
  {
    hide Passes, Count, JumpsOut, Spend, SpendOn, SilentWithin, Silent, LoopsOn, InHeaderLoop, HasRoom;
    LoopStates(c, data, p);
    CountKept(c);
    var (c', control) := Passes(Count(c), data[p]);
    if !control.Next? { NoneAfterStop(c, data, p); }
    if LoopsOn(c.ps.state, data[p]) {
      if control.Next? {
        if JumpsOut(c, data, p) {
          JumpingHere(c, data, p);
        } else {
          LoopKeeps(Count(c), data[p]);
          SilentFurther(c, data, p);
          SpendOnQuiet(c', data, p + 1);
        }
      }
    } else if control.Next? {
      SilentElsewhere(c, data, p);
      SpendQuiet(c', data, p + 1);
    }
  }

  lemma {:induction false} SpendOnQuiet(c: Config, data: string, p: nat)
    requires p <= |data| && InHeaderLoop(c.ps.state)
    ensures Quiet(SpendOn(c, data, p), data) <==> SilentWithin(c, data, p)
    decreases |data| - p, 2
  {
    hide Passes, Count, SpendFrom;
    if p < |data| {
      SpendFromQuiet(c, data, p);
    } else {
      AtTheEnd(c, data);
    }
  }

  lemma AtTheEnd(c: Config, data: string)
    requires InHeaderLoop(c.ps.state)
    ensures SilentWithin(c, data, |data|) <==> c.n >= HTTP_MAX_HEADER_SIZE
  {
    hide Passes, Count, JumpsOut, LoopsOn;
    assert Comes(c, data, |data|, |data|) == Some(c);
    assert RunsOut(c, data, |data|, |data|) <==> c.n >= HTTP_MAX_HEADER_SIZE;
  }

  /** A call that exceeds the budget returns the length of its buffer exactly if the overflow is silent. */
  lemma SilentOverflow(c: Config, data: string)
    ensures Quiet(Spend(Begin(c), data, 0), data) <==> Silent(Begin(c), data, 0)
  {
    hide *;
    SpendQuiet(Begin(c), data, 0);
  }

  /** Whether a call that does not fail for another reason exceeds the budget at all: either the plain count of the header
      bytes passes the limit, or the overflow is silent. */
  lemma OverflowExact(c: Config, data: string)
    requires c.n <= c.peak <= HTTP_MAX_HEADER_SIZE && !RunBuffer(c, data).outcome.Failed?
    ensures Spend(Begin(c), data, 0).Over? <==> RunBuffer(c, data).c.peak > HTTP_MAX_HEADER_SIZE || Silent(Begin(c), data, 0)
  {
    hide Run, Spend, Silent, InHeaderLoop;
    SilentOverflow(c, data);
    SpendCuts(Begin(c), data, 0);
    SpendKeeps(Begin(c), data, 0);
  }
}
