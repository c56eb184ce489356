/** A body with a Content-Length: exactly that many bytes are delivered, in order, and the message ends with the last. */
module Content {
  import opened Http
  import opened Machine
  import opened Reading
  import opened Scan
  import opened Split
  import opened Budget

  /** A parser inside a body of which some bytes have been read and `ps.length` bytes are still to come. */
  predicate InBody(c: Config) {
    c.ps.state == State.Content(BodyIdentity) && 0 < c.ps.length
  }

  lemma BodyPass(ps: Parser, skip: bool, ch: char)
    requires ps.state == State.Content(BodyIdentity)
    ensures PassOf(ps, skip, ch)
         == if ps.length <= 1 then
              Pass(ps.(length := 0, state := State.Content(MessageDone)), LastByte(Kind.Body), false, Again)
            else Pass(ps.(length := ps.length - 1), Byte(Kind.Body), false, Next)
  {
    hide StartPass, StatusLinePass, TargetPass, VersionPass, FieldsPass, EndingPass, ChunkPass;
  }

  lemma DonePass(ps: Parser, skip: bool, ch: char)
    requires ps.state == State.Content(MessageDone)
    ensures PassOf(ps, skip, ch)
         == Pass(ps.(state := NewMessage(ps)), Call(MessageComplete), false, if ps.upgrade then Exit else Next)
  {
    hide StartPass, StatusLinePass, TargetPass, VersionPass, FieldsPass, EndingPass, ChunkPass, NewMessage;
  }

  /** The configuration after a whole body whose last part is b. */
  predicate BodyRead(c: Config, b: string, d: Config) {
    var done := c.ps.(length := 0, state := State.Content(MessageDone));
    && d.ps == done.(state := NewMessage(done))
    && d.calls == c.calls + [Data(Kind.Body, Held(c.pend) + b), MessageComplete]
    && d.pend == None && !d.skip
  }

  /** What a byte that ends a message does to the run. */
  function Last(upgrade: bool): Control {
    if upgrade then Exit else Control.Next
  }

  lemma NewStates(ps: Parser)
    ensures NewMessage(ps) in {Dead, Start(StartReq), Start(StartRes)}
  {
  }

  /** NewMessage does not look at the state. */
  lemma NewMessageAnywhere(ps: Parser, s: State)
    ensures NewMessage(ps.(state := s)) == NewMessage(ps)
  {
  }

  /** The bytes of a body do not count against the header budget. */
  predicate Uncounted(c: Config, d: Config) {
    d.n == c.n && d.peak == if c.n > c.peak then c.n else c.peak
  }

  lemma NotInValue(c: Config, ch: char)
    requires !c.ps.state.Fields?
    ensures !After(c, ch).skip
  {
    hide PassOf;
  }

  /** The last byte of a body. */
  lemma LastBodyByte(c: Config, ch: char)
    requires InBody(c) && c.ps.length == 1
    ensures
      var (d, control) := Passes(Count(c), ch);
      BodyRead(c, [ch], d) && (control == if c.ps.upgrade then Exit else Next) && Uncounted(c, d)
  {
    hide PassOf, NewMessage;
    var c0 := Count(c);
    BodyPass(c0.ps, c0.skip, ch);
    NotInValue(c0, ch);
    var c1 := After(c0, ch);
    DonePass(c1.ps, c1.skip, ch);
    NotInValue(c1, ch);
    var d := After(c1, ch);
    assert Passes(c0, ch) == Passes(c1, ch);
    assert c.calls + [Data(Kind.Body, Held(c.pend) + [ch])] + [MessageComplete]
        == c.calls + [Data(Kind.Body, Held(c.pend) + [ch]), MessageComplete];
  }

  /** Inside a body every byte is delivered and counted down: delivered and remaining bytes together stay the same. */
  lemma {:induction false} ReadPartOfBody(c: Config, b: string)
    requires InBody(c) && |b| < c.ps.length && (b == "" ==> !c.skip)
    ensures
      Read(c, b).Some? &&
      var d := Read(c, b).value;
      && d.ps == c.ps.(length := c.ps.length - |b|) && d.calls == c.calls && !d.skip
      && (d.pend == if b == "" then c.pend else Some(Held(c.pend) + b))
      && (b != "" ==> Uncounted(c, d)) && (b == "" ==> d == c)
    decreases |b|
  {
    hide PassOf, Read;
    if b == "" {
      ReadNothing(c);
    } else {
      assert b == [b[0]] + b[1..];
      BodyPass(c.ps, c.skip, b[0]);
      var d := ReadPass(c, b[0], PassOf(c.ps, c.skip, b[0]), b[1..]);
      assert c.calls + [] == c.calls;
      ReadPartOfBody(d, b[1..]);
      assert Held(c.pend) + [b[0]] + b[1..] == Held(c.pend) + b;
      assert b[1..] == "" ==> Held(c.pend) + [b[0]] + b[1..] == Held(c.pend) + [b[0]];
    }
  }

  /** The whole body: its n bytes are delivered, then the message is complete and the parser is in a start state. */
  lemma ReadBody(c: Config, b: string) returns (d: Config)
    requires InBody(c) && |b| == c.ps.length && !c.skip
    ensures EndsIn(c, b, d, Last(c.ps.upgrade)) && BodyRead(c, b, d) && Uncounted(c, d)
  {
    hide PassOf, Read, Passes, NewMessage;
    var k := |b| - 1;
    ReadPartOfBody(c, b[..k]);
    var c1 := Read(c, b[..k]).value;
    LastBodyByte(c1, b[k]);
    d := Passes(Count(c1), b[k]).0;
    assert Held(c1.pend) + [b[k]] == Held(c.pend) + b;
  }

  lemma EofPass(ps: Parser, skip: bool, ch: char)
    requires ps.state == State.Content(BodyIdentityEof)
    ensures PassOf(ps, skip, ch) == Pass(ps, Byte(Kind.Body), false, Next)
  {
    hide StartPass, StatusLinePass, TargetPass, VersionPass, FieldsPass, EndingPass, ChunkPass;
  }

  lemma {:induction false} ReadEofPart(c: Config, b: string) returns (d: Config)
    requires c.ps.state == State.Content(BodyIdentityEof) && !c.skip
    ensures Read(c, b) == Some(d) && d.ps == c.ps && d.calls == c.calls && !d.skip
    ensures d.pend == if b == "" then c.pend else Some(Held(c.pend) + b)
    ensures if b == "" then d == c else Uncounted(c, d)
    decreases |b|
  {
    hide PassOf, Read;
    if b == "" {
      ReadNothing(c);
      d := c;
    } else {
      assert b == [b[0]] + b[1..];
      EofPass(c.ps, c.skip, b[0]);
      var c1 := ReadPass(c, b[0], PassOf(c.ps, c.skip, b[0]), b[1..]);
      assert c.calls + [] == c.calls;
      d := ReadEofPart(c1, b[1..]);
      assert Held(c.pend) + [b[0]] + b[1..] == Held(c.pend) + b;
      assert b[1..] == "" ==> Held(c.pend) + [b[0]] == Held(c.pend) + b;
    }
  }

  /** A body that ends with the stream takes whatever comes. */
  lemma ReadToEnd(c: Config, b: string) returns (d: Config)
    requires c.ps.state == State.Content(BodyIdentityEof) && !c.skip && b != ""
    ensures EndsIn(c, b, d, Control.Next) && d.ps == c.ps && d.calls == c.calls && d.pend == Some(Held(c.pend) + b) && !d.skip
    ensures Uncounted(c, d)
  {
    hide PassOf, Read;
    var k := |b| - 1;
    var c1 := ReadEofPart(c, b[..k]);
    EofPass(c1.ps, c1.skip, b[k]);
    d := After(Count(c1), b[k]);
    assert Passes(Count(c1), b[k]) == (d, Control.Next);
    assert c.calls + [] == c.calls;
    assert Held(c1.pend) + [b[k]] == Held(c.pend) + b;
  }

  /** One call of on_body for each of a list of buffers. */
  function BodyCalls(pieces: seq<string>): (r: seq<Event>)
    ensures |r| == |pieces|
  {
    if pieces == [] then [] else [Data(Kind.Body, pieces[0])] + BodyCalls(pieces[1..])
  }

  lemma PieceOfBody(c: Config, piece: string)
    requires InBody(c) && c.pend == None && 0 < |piece| < c.ps.length
    ensures
      var r := RunBuffer(c, piece);
      && r.outcome == Completed && r.c.pend == None
      && r.c.ps == c.ps.(length := c.ps.length - |piece|) && r.c.calls == c.calls + [Data(Kind.Body, piece)]
      && Uncounted(c, r.c)
  {
    hide Read;
    var c0 := Begin(c);
    ReadPartOfBody(c0, piece);
    assert piece[0..|piece|] == piece;
    var skip := RunReads(c0, piece, 0, |piece|);
    assert "" + piece == piece;
  }

  lemma EndOfBody(c: Config, piece: string)
    requires InBody(c) && c.pend == None && |piece| == c.ps.length
    ensures
      var r := RunBuffer(c, piece);
      r.outcome == (if c.ps.upgrade then Exited else Completed) && BodyRead(c, piece, r.c) && Uncounted(c, r.c) && r.at == |piece|
  {
    hide Read, Passes, NewMessage, Run;
    var c0 := Begin(c);
    var k := |piece| - 1;
    ReadPartOfBody(c0, piece[..k]);
    assert piece[0..k] == piece[..k];
    var skip := RunReads(c0, piece, 0, k);
    var c1 := Read(c0, piece[..k]).value;
    LastBodyByte(c1, piece[k]);
    assert Held(c1.pend) + [piece[k]] == piece;
    var (d, control) := Passes(Count(c1), piece[k]);
    LastStep(c1, piece, k);
    assert "" + piece == piece;
    assert End(d) == d;
  }

  /** The run over the last byte of a buffer. */
  lemma LastStep(c: Config, data: string, k: nat)
    requires k + 1 == |data| && Passes(Count(c), data[k]).1 in {Next, Exit}
    ensures
      var (d, control) := Passes(Count(c), data[k]);
      Run(c, data, k) == if control.Exit? then RunResult(d, k + 1, Exited) else RunResult(End(d), k + 1, Completed)
  {
    hide Passes, Count, End;
    var (d, control) := Passes(Count(c), data[k]);
    assert Run(c, data, k) == Resume(Count(c), data, k);
    if control.Next? {
      assert Run(d, data, k + 1) == RunResult(End(d), k + 1, Completed);
    }
  }

  /** A body in any number of buffers: every one of them is delivered in one callback, as it is, and the message is
      complete at the end of the last. */
  lemma {:induction false} BodyInPieces(c: Config, pieces: seq<string>)
    requires InBody(c) && c.pend == None && |Flatten(pieces)| == c.ps.length
    requires forall i :: 0 <= i < |pieces| ==> pieces[i] != ""
    ensures
      var r := RunAll(c, pieces);
      var done := c.ps.(length := 0, state := State.Content(MessageDone));
      && r.outcome == (if c.ps.upgrade then Exited else Completed)
      && r.c.ps == done.(state := NewMessage(done)) && r.c.pend == None
      && r.c.calls == c.calls + BodyCalls(pieces) + [MessageComplete]
    decreases |pieces|
  {
    hide RunBuffer, NewMessage;
    var piece, rest := pieces[0], pieces[1..];
    if rest == [] {
      assert piece + "" == piece;
      EndOfBody(c, piece);
      assert BodyCalls(pieces) == [Data(Kind.Body, piece)] + [];
      assert "" + piece == piece;
      assert c.calls + [Data(Kind.Body, piece), MessageComplete] == c.calls + BodyCalls(pieces) + [MessageComplete];
    } else {
      assert rest[0] == pieces[1] != "";
      assert |Flatten(rest)| >= |rest[0]|;
      PieceOfBody(c, piece);
      BodyInPieces(RunBuffer(c, piece).c, rest);
      assert c.calls + [Data(Kind.Body, piece)] + BodyCalls(rest) + [MessageComplete]
          == c.calls + BodyCalls(pieces) + [MessageComplete];
    }
  }

  /** What is left to do after the last byte of a body. */
  function RestOf(d: Config, upgrade: bool, data: string, p: nat): RunResult
    requires p <= |data|
  {
    if upgrade then RunResult(d, p, Exited) else Run(d, data, p)
  }

  /** In one buffer: exactly the next n bytes are delivered as body, and what follows is read from the state in which the
      next message starts (or from Dead), unless another protocol follows. */
  lemma BodyInOneBuffer(c: Config, body: string, rest: string) returns (d: Config)
    requires InBody(c) && |body| == c.ps.length && c.pend == None
    ensures BodyRead(c, body, d) && d.ps.state in {Dead, Start(StartReq), Start(StartRes)}
    ensures d.calls == c.calls + [Data(Kind.Body, body), MessageComplete]
    ensures RunBuffer(c, body + rest) == RestOf(d, c.ps.upgrade, body + rest, |body|)
  {
    hide Run, Read, NewMessage;
    var data := body + rest;
    d := ReadBody(Begin(c), body);
    NewStates(c.ps.(length := 0, state := State.Content(MessageDone)));
    assert "" + body == body;
    if c.ps.upgrade {
      BufferStops(c, data, body, d, Exit);
    } else {
      EndsRead(Begin(c), body, d);
      assert data[0..|body|] == body;
      var skip := RunReads(Begin(c), data, 0, |body|);
      NotInGeneral(d, skip);
    }
  }

  lemma NotInGeneral(d: Config, skip: bool)
    requires (skip ==> InGeneralValue(d.ps)) && !d.ps.state.Fields? && !d.skip
    ensures d.(skip := skip) == d
  {
  }

  /** Content-Length conservation, in any partition of the stream and whatever comes after the body: with n bytes to come,
      exactly the next n bytes are delivered, buffer by buffer, up to a first part x of buffer k; then the message is
      complete, and the rest of that buffer is read from the state in which the next message starts (or from Dead), unless
      another protocol follows. */
  lemma {:induction false} BodyConserved(c: Config, body: string, rest: string, pieces: seq<string>)
    returns (k: nat, x: string, d: Config)
    requires InBody(c) && |body| == c.ps.length && c.pend == None
    requires (forall i :: 0 <= i < |pieces| ==> pieces[i] != "") && Flatten(pieces) == body + rest
    ensures k < |pieces| && x != "" && x <= pieces[k] && Flatten(pieces[..k]) + x == body
    ensures
      var front := RunAll(c, pieces[..k]);
      front.outcome == Completed && RunBuffer(front.c, pieces[k]) == RestOf(d, c.ps.upgrade, pieces[k], |x|)
    ensures d.calls == c.calls + BodyCalls(pieces[..k] + [x]) + [MessageComplete] && d.pend == None
    ensures d.ps.state in {Dead, Start(StartReq), Start(StartRes)} && d.ps.length == 0
    ensures d.calls <= RunAll(c, pieces).c.calls
    decreases |pieces|
  {
    hide RunBuffer, Run, NewMessage, BodyCalls;
    NothingRun(c);
    assert pieces != [];
    var (p, more) := (pieces[0], pieces[1..]);
    if |p| >= c.ps.length {
      k, x := 0, p[..c.ps.length];
      assert p[..|body|] == (body + rest)[..|body|] == body;
      d := BodyInOneBuffer(c, x, p[c.ps.length..]);
      assert x + p[c.ps.length..] == p;
      assert pieces[..0] == [] && [] + [x] == [x] && "" + x == x;
      OneBodyCall(x);
      assert c.calls + [Data(Kind.Body, x), MessageComplete] == c.calls + BodyCalls([x]) + [MessageComplete];
      RunGrows(d, p, |x|);
      FirstCalls(c, pieces);
    } else {
      PieceOfBody(c, p);
      var c1 := RunBuffer(c, p).c;
      assert p == body[..|p|] && body + rest == p + (body[|p|..] + rest);
      assert Flatten(more) == body[|p|..] + rest;
      var k1;
      k1, x, d := BodyConserved(c1, body[|p|..], rest, more);
      k := k1 + 1;
      OnePieceMore(c, pieces, k, x);
    }
  }

  lemma OnePieceMore(c: Config, pieces: seq<string>, k: nat, x: string)
    requires 0 < k < |pieces|
    ensures
      var (p, front) := (pieces[0], pieces[1..][..k - 1]);
      && RunAll(c, pieces[..k]).outcome
         == (if RunBuffer(c, p).outcome.Completed? then RunAll(RunBuffer(c, p).c, front).outcome else RunBuffer(c, p).outcome)
      && (RunBuffer(c, p).outcome.Completed? ==> RunAll(c, pieces[..k]).c == RunAll(RunBuffer(c, p).c, front).c)
      && Flatten(pieces[..k]) + x == p + (Flatten(front) + x)
      && c.calls + [Data(Kind.Body, p)] + BodyCalls(front + [x]) + [MessageComplete]
         == c.calls + BodyCalls(pieces[..k] + [x]) + [MessageComplete]
  {
    hide RunBuffer;
    var (p, front) := (pieces[0], pieces[1..][..k - 1]);
    assert pieces[..k][0] == p && pieces[..k][1..] == front;
    var all := pieces[..k] + [x];
    assert all[0] == p && all[1..] == front + [x];
  }

  lemma OneBodyCall(x: string)
    ensures BodyCalls([x]) == [Data(Kind.Body, x)]
  {
    assert BodyCalls([x]) == [Data(Kind.Body, x)] + [];
  }

  lemma NothingRun(c: Config)
    ensures RunAll(c, []) == RunResult(c, 0, Completed) && Flatten([]) == ""
  {
  }

  lemma FirstCalls(c: Config, pieces: seq<string>)
    requires pieces != []
    ensures RunBuffer(c, pieces[0]).c.calls <= RunAll(c, pieces).c.calls
  {
    hide RunBuffer;
    RunAllGrows(RunBuffer(c, pieces[0]).c, pieces[1..]);
  }
}
