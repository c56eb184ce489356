/** Reading header values: what every value does, and Content-Length, whose number is exact or refused. */
module Values {
  import opened Characters
  import opened Http
  import opened Machine
  import opened Reading

  predicate AtValue(ps: Parser, ch: char) {
    || (ps.state == Fields(DiscardWs) && ch != SP && ch != HT && !IsEol(ch))
    || ps.state == Fields(ValueStart)
  }

  lemma FirstValuePass(ps: Parser, skip: bool, ch: char)
    requires AtValue(ps, ch)
    ensures PassOf(ps, skip, ch) == FirstValueChar(ps, ch)
  {
    hide StartPass, StatusLinePass, TargetPass, VersionPass, EndingPass, ChunkPass, ContentPass, FirstValueChar;
  }

  lemma InValuePass(ps: Parser, skip: bool, ch: char)
    requires ps.state == Fields(InValue)
    ensures PassOf(ps, skip, ch)
         == if ch == CR then Pass(ps.(state := Fields(ValueAlmostDone)), Deliver(Kind.Value), false, Next)
            else if ch == LF then Pass(ps.(state := Fields(ValueAlmostDone)), Deliver(Kind.Value), false, Again)
            else if !ps.lenient && !skip && !IsHeaderChar(ch) then Error(ps, INVALID_HEADER_TOKEN)
            else ValueChar(ps, ch)
  {
    hide StartPass, StatusLinePass, TargetPass, VersionPass, EndingPass, ChunkPass, ContentPass, ValueChar;
  }

  predicate NoEol(s: string) {
    forall i | 0 <= i < |s| :: !IsEol(s[i])
  }

  /** Bytes of a value that IS_HEADER_CHAR lets through. */
  predicate Legal(lenient: bool, s: string) {
    forall i | 0 <= i < |s| :: lenient || IsHeaderChar(s[i])
  }

  /** A value that is being collected. */
  predicate Collects(c: Config, u: string) {
    c.ps.state == Fields(InValue) && c.pend == Some(u)
  }

  /** One byte of a value either fails or is what ValueChar makes of it. */
  lemma ReadValueByte(c: Config, u: string, ch: char, rest: string) returns (d: Config)
    requires Collects(c, u) && !IsEol(ch)
    ensures ValueChar(c.ps, ch).control.Fail? ==> Read(c, [ch] + rest) == None
    ensures ValueChar(c.ps, ch).control.Next? && (c.ps.lenient || c.skip || IsHeaderChar(ch)) ==>
      Read(c, [ch] + rest) == Read(d, rest)
    ensures Read(c, [ch] + rest).Some? ==> Read(c, [ch] + rest) == Read(d, rest) && ValueChar(c.ps, ch).control.Next?
    ensures ValueChar(c.ps, ch).control.Next? ==>
      d.ps == ValueChar(c.ps, ch).ps && d.calls == c.calls && Collects(d, u + [ch]) && !d.skip
  {
    hide PassOf, Read;
    InValuePass(c.ps, c.skip, ch);
    ReadFirst(c, ch, rest);
    ValueCharFacts(c.ps, ch);
    hide ValueChar;
    d := After(Count(c), ch).(ps := ValueChar(c.ps, ch).ps, pend := Some(u + [ch]), skip := false);
    if PassOf(c.ps, c.skip, ch).control.Fail? {
      FailedRead(c, ch, rest);
    } else {
      assert c.calls + [] == c.calls;
      assert Passes(Count(c), ch) == (After(Count(c), ch), Control.Next);
    }
  }

  lemma ValueCharFacts(ps: Parser, ch: char)
    ensures
      var r := ValueChar(ps, ch);
      r.control.Fail? || (r.control.Next? && r.effect == Byte(Kind.Value) && r.ps.state == ps.state && r.ps.lenient == ps.lenient && !r.reset)
  {
  }

  /** The first byte of a value. */
  lemma ReadFirstValueByte(c: Config, ch: char, rest: string) returns (d: Config)
    requires AtValue(c.ps, ch) && c.pend == None
    ensures FirstValueChar(c.ps, ch).control.Fail? ==> Read(c, [ch] + rest) == None
    ensures !FirstValueChar(c.ps, ch).control.Fail? ==>
      && Read(c, [ch] + rest) == Read(d, rest)
      && d.ps == FirstValueChar(c.ps, ch).ps && d.calls == c.calls && Collects(d, [ch]) && !d.skip
  {
    hide PassOf, Read, Passes;
    FirstValuePass(c.ps, c.skip, ch);
    if FirstValueChar(c.ps, ch).control.Fail? {
      FailedRead(c, ch, rest);
      d := c;
    } else {
      d := ReadPass(c, ch, PassOf(c.ps, c.skip, ch), rest);
      assert c.calls + [] == c.calls;
      assert "" + [ch] == [ch];
    }
  }

  /** The end of a header line: the value is delivered whole. */
  lemma ReadLineEnd(c: Config, u: string, rest: string) returns (d: Config)
    requires Collects(c, u)
    ensures Read(c, [CR, LF] + rest) == Read(d, rest)
    ensures d.ps == c.ps.(state := Fields(ValueLws)) && d.calls == c.calls + [Data(Kind.Value, u)] && d.pend == None && !d.skip
  {
    hide PassOf, Read, Passes;
    assert [CR, LF] + rest == [CR] + ([LF] + rest);
    InValuePass(c.ps, c.skip, CR);
    var c1 := ReadFirstEnd(c, u, [LF] + rest);
    AlmostDonePass(c1.ps, c1.skip);
    d := ReadPass(c1, LF, PassOf(c1.ps, c1.skip, LF), rest);
    assert c1.calls + [] == c1.calls;
  }

  lemma ReadFirstEnd(c: Config, u: string, rest: string) returns (d: Config)
    requires Collects(c, u)
    ensures Read(c, [CR] + rest) == Read(d, rest)
    ensures d.ps == c.ps.(state := Fields(ValueAlmostDone)) && d.calls == c.calls + [Data(Kind.Value, u)] && d.pend == None && !d.skip
  {
    hide PassOf, Read;
    InValuePass(c.ps, c.skip, CR);
    d := After(Count(c), CR).(skip := false);
    assert Passes(Count(c), CR) == (After(Count(c), CR), Control.Next);
    ReadFirst(c, CR, rest);
  }

  lemma AlmostDonePass(ps: Parser, skip: bool)
    requires ps.state == Fields(ValueAlmostDone)
    ensures PassOf(ps, skip, LF) == Pass(ps.(state := Fields(ValueLws)), Nothing, false, Next)
  {
    hide StartPass, StatusLinePass, TargetPass, VersionPass, EndingPass, ChunkPass, ContentPass;
  }

  // Content-Length

  predicate AllDigits(s: string) {
    forall i | 0 <= i < |s| :: IsNum(s[i])
  }

  predicate AllSpaces(s: string) {
    forall i | 0 <= i < |s| :: s[i] == SP
  }

  /** The number a string of decimal digits denotes. */
  function DecValue(s: string): nat
    requires AllDigits(s)
  {
    if s == "" then 0 else DecValue(s[..|s| - 1]) * 10 + Digit(s[|s| - 1])
  }

  /** k digits and then nothing but spaces. */
  predicate Spells(v: string, k: nat) {
    0 < k <= |v| && AllDigits(v[..k]) && AllSpaces(v[k..])
  }

  const MAX_LENGTH: nat := TWO_TO_THE_64 - 7

  lemma DecSnoc(s: string, ch: char)
    requires AllDigits(s) && IsNum(ch)
    ensures AllDigits(s + [ch]) && DecValue(s + [ch]) == DecValue(s) * 10 + Digit(ch)
  {
    assert (s + [ch])[..|s|] == s;
  }

  lemma {:induction false} DecGrows(s: string, k: nat)
    requires AllDigits(s) && k <= |s|
    ensures DecValue(s[..k]) <= DecValue(s)
    decreases |s|
  {
    if k < |s| {
      DecGrows(s[..|s| - 1], k);
      assert s[..|s| - 1][..k] == s[..k];
    } else {
      assert s[..k] == s;
    }
  }

  /** A Content-Length value of which u has been read: k digits and then spaces. */
  predicate LengthSoFar(ps: Parser, u: string, k: nat) {
    Spells(u, k) && ps.length == DecValue(u[..k]) <= MAX_LENGTH
    && ps.hstate == if k == |u| then ContentLengthNum else ContentLengthWs
  }

  predicate IsLength(v: string, k: nat) {
    Spells(v, k) && DecValue(v[..k]) <= MAX_LENGTH
  }

  /** The value denotes the length n. */
  ghost predicate IsNumber(v: string, n: nat) {
    exists k: nat :: IsLength(v, k) && DecValue(v[..k]) == n
  }

  lemma LengthByte(ps: Parser, u: string, k: nat, ch: char) returns (k': nat)
    requires LengthSoFar(ps, u, k) && !IsEol(ch)
    ensures ValueChar(ps, ch).control.Next? ==>
      LengthSoFar(ValueChar(ps, ch).ps, u + [ch], k')
      && ValueChar(ps, ch).ps == ps.(hstate := ValueChar(ps, ch).ps.hstate, length := ValueChar(ps, ch).ps.length)
      && IsHeaderChar(ch)
    ensures ValueChar(ps, ch).control.Fail? ==> forall rest, j: nat :: !IsLength(u + [ch] + rest, j)
  {
    k' := if k == |u| && IsNum(ch) then k + 1 else k;
    if k == |u| {
      assert u[..k] == u;
      if IsNum(ch) {
        DecSnoc(u, ch);
        assert (u + [ch])[..k'] == u + [ch];
      } else {
        assert (u + [ch])[..k'] == u;
      }
    } else {
      assert (u + [ch])[..k] == u[..k];
    }
    if ValueChar(ps, ch).control.Fail? {
      assert !(k == |u| && IsNum(ch) && DecValue(u + [ch]) <= MAX_LENGTH);
      forall rest, j: nat ensures !IsLength(u + [ch] + rest, j) {
        RefusedByte(u, k, ch, rest, j);
      }
    }
  }

  /** A byte that cannot follow, or a digit that makes the number too large. */
  lemma RefusedByte(u: string, k: nat, ch: char, rest: string, j: nat)
    requires Spells(u, k) && ch != SP && (k == |u| && IsNum(ch) ==> AllDigits(u + [ch]) && DecValue(u + [ch]) > MAX_LENGTH)
    ensures !IsLength(u + [ch] + rest, j)
  {
    var v := u + [ch] + rest;
    if IsLength(v, j) {
      SpelledBytes(u, k);
      SpelledBytes(v, j);
      assert v[|u|] == ch && v[k - 1] == u[k - 1];
      if k < j && v[k] == ch {
        assert v[..j][..k + 1] == u + [ch];
        DecGrows(v[..j], k + 1);
      }
    }
  }

  /** The digits and the spaces of a value, one by one. */
  lemma SpelledBytes(v: string, k: nat)
    requires Spells(v, k)
    ensures forall i | 0 <= i < k :: IsNum(v[i])
    ensures forall i | k <= i < |v| :: v[i] == SP
  {
    assert forall i | 0 <= i < k :: v[i] == v[..k][i];
    assert forall i | k <= i < |v| :: v[i] == v[k..][i - k];
  }

  lemma {:induction false} ReadLengthRest(c: Config, u: string, k: nat, rest: string)
    requires Collects(c, u) && LengthSoFar(c.ps, u, k) && NoEol(rest)
    ensures Read(c, rest).Some? <==> exists j: nat :: IsLength(u + rest, j)
    ensures Read(c, rest).Some? ==>
      var d := Read(c, rest).value;
      && Collects(d, u + rest) && d.calls == c.calls
      && d.ps == c.ps.(hstate := d.ps.hstate, length := d.ps.length)
      && exists j: nat :: LengthSoFar(d.ps, u + rest, j)
    decreases |rest|
  {
    hide Read, ValueChar, IsLength;
    if rest == "" {
      assert u + rest == u;
      ReadNothing(c);
      LengthSoFarIsLength(c.ps, u, k);
    } else {
      var ch := rest[0];
      assert rest == [ch] + rest[1..];
      assert u + rest == u + [ch] + rest[1..];
      var k' := LengthByte(c.ps, u, k, ch);
      var d := ReadValueByte(c, u, ch, rest[1..]);
      ValueCharFacts(c.ps, ch);
      if ValueChar(c.ps, ch).control.Next? {
        ReadLengthRest(d, u + [ch], k', rest[1..]);
      }
    }
  }

  /** A Content-Length value is accepted exactly when it is decimal digits that denote at most 2^64 - 7, followed
      by nothing but spaces, and it is the only one; the stored length is then the number the digits denote,
      which is never the value that stands for an absent length. */
  lemma ContentLengthExact(c: Config, v: string)
    requires v != "" && AtValue(c.ps, v[0]) && c.pend == None && c.ps.hstate.ContentLength? && NoEol(v)
    ensures Read(c, v).Some? <==> !c.ps.flags.contentLength && exists k: nat :: IsLength(v, k)
    ensures Read(c, v).Some? ==>
      var d := Read(c, v).value;
      && Collects(d, v) && d.calls == c.calls
      && d.ps == c.ps.(state := Fields(InValue), index := 0, hstate := d.ps.hstate, length := d.ps.length,
                       flags := c.ps.flags.(contentLength := true))
      && d.ps.hstate in {ContentLengthNum, ContentLengthWs}
      && d.ps.length < ULLONG_MAX
      && exists k: nat :: IsLength(v, k) && d.ps.length == DecValue(v[..k])
  {
    hide Read;
    var ch := v[0];
    assert v == [ch] + v[1..];
    var d := ReadFirstValueByte(c, ch, v[1..]);
    if IsNum(ch) {
      assert DecValue([ch]) == Digit(ch) by { DecSnoc("", ch); assert "" + [ch] == [ch]; }
      assert [ch][..1] == [ch];
      assert !c.ps.flags.contentLength ==> LengthSoFar(d.ps, [ch], 1);
    } else {
      forall k: nat ensures !IsLength(v, k) {
        if Spells(v, k) { SpelledBytes(v, k); }
      }
    }
    if IsNum(ch) && !c.ps.flags.contentLength {
      ReadLengthRest(d, [ch], 1, v[1..]);
    }
  }

  lemma LengthSoFarIsLength(ps: Parser, u: string, k: nat)
    requires LengthSoFar(ps, u, k)
    ensures IsLength(u, k) && ps.length == DecValue(u[..k])
  {
  }
}
