/** Method recognition is exact: the first token of a request is accepted exactly when it is a method name. */
module Methods {
  import opened Characters
  import opened Http
  import opened Machine
  import opened Reading

  /** The method from which the method switch reaches m, and the number of letters it has read by then. */
  function Branch(m: Method): (Method, nat) {
    match m
    case PUT => (POST, 2)
    case PATCH => (POST, 2)
    case PROPFIND => (POST, 2)
    case PURGE => (PUT, 3)
    case CHECKOUT => (CONNECT, 2)
    case COPY => (CONNECT, 3)
    case MOVE => (MKCOL, 2)
    case MERGE => (MKCOL, 2)
    case MSEARCH => (MKCOL, 2)
    case MKACTIVITY => (MKCOL, 3)
    case MKCALENDAR => (MKCOL, 4)
    case SEARCH => (SUBSCRIBE, 2)
    case SOURCE => (SUBSCRIBE, 2)
    case REBIND => (REPORT, 3)
    case PROPPATCH => (PROPFIND, 5)
    case LINK => (LOCK, 2)
    case UNSUBSCRIBE => (UNLOCK, 3)
    case UNBIND => (UNLOCK, 3)
    case UNLINK => (UNLOCK, 4)
    case _ => (m, 1)
  }

  /** The method the parser assumes after i letters of m. */
  function Assumed(m: Method, i: nat): Method
    decreases Branch(m).1
  {
    BranchShrinks(m);
    if i >= Branch(m).1 || Branch(m).1 == 1 then m else Assumed(Branch(m).0, i)
  }

  lemma BranchShrinks(m: Method)
    ensures Branch(m).1 >= 1
    ensures Branch(m).1 > 1 ==> Branch(Branch(m).0).1 < Branch(m).1
  {
  }

  /** A method and the one it branches from agree up to the branch, where the switch tells them apart. */
  predicate Branches(m: Method) {
    var (parent, b) := Branch(m);
    if b == 1 then FirstLetter(CharAt(MethodString(m), 0)) == Some(m)
    else
      && b <= |MethodString(m)| && b - 1 < |MethodString(parent)|
      && (forall i | 0 <= i < b - 1 :: MethodString(m)[i] == MethodString(parent)[i])
      && MethodString(m)[b - 1] != MethodString(parent)[b - 1]
      && Redirect(parent, b - 1, MethodString(m)[b - 1]) == Some(m)
  }

  lemma BranchFacts(m: Method)
    ensures Branches(m)
    ensures Branch(m).1 == 1 ==> |MethodString(m)| >= 1 && FirstLetter(MethodString(m)[0]) == Some(m)
    ensures Branch(m).1 > 1 ==> MethodString(m)[..Branch(m).1 - 1] == MethodString(Branch(m).0)[..Branch(m).1 - 1]
  {
    hide MethodString, FirstLetter, Redirect;
    EveryBranch(m);
    MethodLength(m);
    hide Branch;
  }

  lemma EveryBranch(m: Method)
    ensures Branches(m)
  {
    hide Branches, Branch;
    BranchGroups(m);
    if m in {PUT, PATCH, PROPFIND, PURGE, PROPPATCH} {
      PostBranches(m);
    } else if m in {MOVE, MERGE, MSEARCH, MKACTIVITY, MKCALENDAR} {
      MkcolBranches(m);
    } else if m in {LINK, UNSUBSCRIBE, UNBIND, UNLINK} {
      LockBranches(m);
    } else if m in {CHECKOUT, COPY, SEARCH, SOURCE, REBIND} {
      OtherBranches(m);
    } else {
      NoBranch(m);
    }
  }

  lemma BranchGroups(m: Method)
    ensures Branch(m).1 == 1
         || m in {PUT, PATCH, PROPFIND, PURGE, PROPPATCH} || m in {MOVE, MERGE, MSEARCH, MKACTIVITY, MKCALENDAR}
         || m in {LINK, UNSUBSCRIBE, UNBIND, UNLINK} || m in {CHECKOUT, COPY, SEARCH, SOURCE, REBIND}
  {
  }

  lemma PostBranches(m: Method)
    requires m in {PUT, PATCH, PROPFIND, PURGE, PROPPATCH}
    ensures Branches(m)
  {
  }

  lemma MkcolBranches(m: Method)
    requires m in {MOVE, MERGE, MSEARCH, MKACTIVITY, MKCALENDAR}
    ensures Branches(m)
  {
  }

  lemma LockBranches(m: Method)
    requires m in {LINK, UNSUBSCRIBE, UNBIND, UNLINK}
    ensures Branches(m)
  {
  }

  lemma OtherBranches(m: Method)
    requires m in {CHECKOUT, COPY, SEARCH, SOURCE, REBIND}
    ensures Branches(m)
  {
  }

  lemma NoBranch(m: Method)
    requires Branch(m).1 == 1
    ensures Branches(m)
  {
  }

  /** The next letter of m either continues the assumed method or redirects to the next one. */
  lemma {:induction false} AssumedNext(m: Method, i: nat)
    requires 1 <= i < |MethodString(m)|
    ensures
      var a := Assumed(m, i);
      var ch := MethodString(m)[i];
      if ch == CharAt(MethodString(a), i) then Assumed(m, i + 1) == a
      else Redirect(a, i, ch) == Some(Assumed(m, i + 1))
    decreases Branch(m).1
  {
    BranchShrinks(m);
    BranchFacts(m);
    var (parent, b) := Branch(m);
    hide MethodString, Branch, Redirect, FirstLetter;
    if b > 1 && i + 1 < b {
      assert MethodString(m)[i] == MethodString(m)[..b - 1][i] == MethodString(parent)[..b - 1][i] == MethodString(parent)[i];
      AssumedNext(parent, i);
    }
  }

  predicate AllLetters(s: string) {
    forall ch | ch in s :: 'A' <= ch <= 'Z' || ch == '-'
  }

  predicate Common(m: Method) {
    m in {DELETE, GET, HEAD, POST, PUT, CONNECT, OPTIONS, TRACE, COPY, LOCK, MKCOL, MOVE, PATCH, PURGE, LINK, UNLINK, SOURCE}
  }

  lemma CommonLetters(m: Method)
    requires Common(m)
    ensures AllLetters(MethodString(m))
  {
  }

  lemma OtherLetters(m: Method)
    requires !Common(m)
    ensures AllLetters(MethodString(m))
  {
  }

  lemma MethodLetters(m: Method)
    ensures AllLetters(MethodString(m))
  {
    hide Common, MethodString;
    if Common(m) { CommonLetters(m); } else { OtherLetters(m); }
  }

  lemma MethodLength(m: Method)
    ensures 3 <= |MethodString(m)| <= 11
  {
  }

  /** A parser inside the method of a request. */
  predicate InMethod(c: Config, m: Method, i: nat) {
    c.ps.state == Start(ReqMethod) && c.ps.verb == m && c.ps.index == i && c.pend.None? && !c.skip
  }

  /** The configuration after a request method. */
  function MethodDone(c: Config, m: Method): Config {
    c.(ps := c.ps.(verb := m, index := |MethodString(m)| + 1, state := Target(ReqSpacesBeforeUrl)))
  }

  /** A configuration up to its byte counts. */
  predicate Like(c: Config, d: Config) {
    c.ps == d.ps && c.skip == d.skip && c.calls == d.calls && c.pend == d.pend
  }

  lemma MethodPass(ps: Parser, skip: bool, ch: char)
    requires ps.state == Start(ReqMethod)
    ensures PassOf(ps, skip, ch) == MethodChar(ps, ch)
  {
    hide MethodChar, StatusLinePass, TargetPass, VersionPass, FieldsPass, EndingPass, ChunkPass, ContentPass;
  }

  lemma LetterPass(ps: Parser, m: Method, i: nat)
    requires 1 <= i < |MethodString(m)| && ps.state == Start(ReqMethod) && ps.verb == Assumed(m, i) && ps.index == i
    ensures
      var ch := MethodString(m)[i];
      MethodChar(ps, ch) == Pass(ps.(verb := Assumed(m, i + 1), index := i + 1), Nothing, false, Next)
  {
    hide MethodString, Redirect, Branch, Assumed;
    MethodLetters(m);
    AssumedNext(m, i);
    assert MethodString(m)[i] in MethodString(m);
  }

  /** One more letter of m. */
  lemma ReadLetter(c: Config, m: Method, i: nat, rest: string) returns (c': Config)
    requires 1 <= i < |MethodString(m)| && InMethod(c, Assumed(m, i), i)
    ensures Read(c, [MethodString(m)[i]] + rest) == Read(c', rest)
    ensures InMethod(c', Assumed(m, i + 1), i + 1) && Like(MethodDone(c', m), MethodDone(c, m))
  {
    hide PassOf, MethodChar, MethodString, Assumed, Passes, Read;
    var ch := MethodString(m)[i];
    MethodPass(c.ps, c.skip, ch);
    LetterPass(c.ps, m, i);
    c' := ReadPass(c, ch, MethodChar(c.ps, ch), rest);
    assert c.calls + [] == c.calls;
  }

  /** The space after m. */
  lemma ReadMethodEnd(c: Config, m: Method) returns (c': Config)
    requires InMethod(c, m, |MethodString(m)|)
    ensures Read(c, [SP]) == Some(c') && Like(c', MethodDone(c, m))
  {
    hide PassOf, MethodString, FirstLetter, Redirect, Branch, Passes, Read;
    MethodPass(c.ps, c.skip, SP);
    assert [SP] + [] == [SP];
    c' := ReadPass(c, SP, MethodChar(c.ps, SP), []);
    ReadNothing(c');
    assert c.calls + [] == c.calls;
  }

  lemma {:induction false} ReadMethodRest(c: Config, m: Method, i: nat) returns (c': Config)
    requires 1 <= i <= |MethodString(m)| && InMethod(c, Assumed(m, i), i)
    ensures Read(c, MethodString(m)[i..] + [SP]) == Some(c') && Like(c', MethodDone(c, m))
    decreases |MethodString(m)| - i
  {
    hide MethodString, Branch, Read, InMethod, MethodDone;
    var s := MethodString(m);
    if i == |s| {
      LastBranch(m);
      assert s[i..] + [SP] == [SP];
      c' := ReadMethodEnd(c, m);
    } else {
      assert s[i..] + [SP] == [s[i]] + (s[i + 1..] + [SP]);
      var c1 := ReadLetter(c, m, i, s[i + 1..] + [SP]);
      c' := ReadMethodRest(c1, m, i + 1);
    }
  }

  lemma LastBranch(m: Method)
    ensures Assumed(m, |MethodString(m)|) == m
  {
    BranchFacts(m);
    MethodLength(m);
  }

  /** A parser at the start of a message that may be a request. */
  predicate AtStart(c: Config) {
    c.ps.state in {Start(StartReq), Start(StartReqOrRes)} && c.pend.None? && !c.skip
  }

  /** The configuration once a message has begun as a request. */
  function RequestBegun(c: Config): Config {
    c.(ps := Machine.Fresh(c.ps).(ptype := if c.ps.state == Start(StartReq) then c.ps.ptype else REQUEST),
       calls := c.calls + [MessageBegin])
  }

  lemma StartReqPass(ps: Parser, skip: bool, ch: char)
    requires ps.state == Start(StartReq) && FirstLetter(ch).Some? && !IsEol(ch)
    ensures PassOf(ps, skip, ch)
         == Pass(Machine.Fresh(ps).(verb := FirstLetter(ch).value, index := 1, state := Start(ReqMethod)), Call(MessageBegin), false, Next)
  {
    hide StatusLinePass, TargetPass, VersionPass, FieldsPass, EndingPass, ChunkPass, ContentPass, FirstLetter;
  }

  lemma StartBothPass(ps: Parser, skip: bool, ch: char)
    requires ps.state == Start(StartReqOrRes) && !IsEol(ch)
    ensures PassOf(ps, skip, ch)
         == if ch == 'H' then Pass(Machine.Fresh(ps).(state := Start(ResOrRespH)), Call(MessageBegin), false, Next)
            else Pass(Machine.Fresh(ps).(ptype := REQUEST, state := Start(StartReq)), Nothing, false, Again)
  {
    hide StatusLinePass, TargetPass, VersionPass, FieldsPass, EndingPass, ChunkPass, ContentPass;
  }

  lemma HeadPass(ps: Parser, skip: bool, ch: char)
    requires ps.state == Start(ResOrRespH)
    ensures PassOf(ps, skip, ch)
         == if ch == 'T' then Pass(ps.(ptype := RESPONSE, state := StatusLine(ResHT)), Nothing, false, Next)
            else if ch == 'E' then Pass(ps.(ptype := REQUEST, verb := HEAD, index := 2, state := Start(ReqMethod)), Nothing, false, Next)
            else Error(ps, INVALID_CONSTANT)
  {
    hide StatusLinePass, TargetPass, VersionPass, FieldsPass, EndingPass, ChunkPass, ContentPass;
  }

  /** The first letter of a request, unless it may also be the first letter of a response. */
  lemma ReadFirstLetter(c: Config, ch: char, rest: string) returns (c': Config)
    requires AtStart(c) && FirstLetter(ch).Some? && !IsEol(ch) && (c.ps.state == Start(StartReqOrRes) ==> ch != 'H')
    ensures Read(c, [ch] + rest) == Read(c', rest)
    ensures Like(c', RequestBegun(c).(ps := RequestBegun(c).ps.(verb := FirstLetter(ch).value, index := 1, state := Start(ReqMethod))))
  {
    hide PassOf, FirstLetter, Read;
    if c.ps.state == Start(StartReq) {
      StartReqPass(c.ps, c.skip, ch);
      c' := ReadPass(c, ch, PassOf(c.ps, c.skip, ch), rest);
    } else {
      StartBothPass(c.ps, c.skip, ch);
      StartReqPass(After(Count(c), ch).ps, After(Count(c), ch).skip, ch);
      assert c.calls + [] == c.calls;
      c' := ReadTwoPasses(c, ch, rest);
    }
  }

  /** HEAD, read from a state in which a response may follow too. */
  lemma ReadHeadMethod(c: Config) returns (c': Config)
    requires AtStart(c) && c.ps.state == Start(StartReqOrRes)
    ensures Read(c, MethodString(HEAD) + [SP]) == Some(c') && Like(c', MethodDone(RequestBegun(c), HEAD))
  {
    hide PassOf, FirstLetter, Read, MethodString;
    var s := MethodString(HEAD);
    HeadString();
    FirstAssumed(HEAD);
    assert s + [SP] == ['H'] + (['E'] + (s[2..] + [SP]));
    StartBothPass(c.ps, c.skip, 'H');
    var c1 := ReadPass(c, 'H', PassOf(c.ps, c.skip, 'H'), ['E'] + (s[2..] + [SP]));
    HeadPass(c1.ps, c1.skip, 'E');
    assert c1.calls + [] == c1.calls;
    var c2 := ReadPass(c1, 'E', PassOf(c1.ps, c1.skip, 'E'), s[2..] + [SP]);
    c' := ReadMethodRest(c2, HEAD, 2);
  }

  /** Every method name followed by a space is read as that method. */
  lemma ReadMethod(c: Config, m: Method) returns (c': Config)
    requires AtStart(c)
    ensures Read(c, MethodString(m) + [SP]) == Some(c') && Like(c', MethodDone(RequestBegun(c), m))
  {
    hide PassOf, FirstLetter, Read, MethodString;
    var s := MethodString(m);
    MethodLength(m);
    MethodLetters(m);
    FirstAssumed(m);
    assert s[0] in s;
    if c.ps.state == Start(StartReqOrRes) && s[0] == 'H' {
      c' := ReadHeadMethod(c);
    } else {
      assert s + [SP] == [s[0]] + (s[1..] + [SP]);
      var c1 := ReadFirstLetter(c, s[0], s[1..] + [SP]);
      c' := ReadMethodRest(c1, m, 1);
    }
  }

  lemma FirstAssumed(m: Method)
    ensures FirstLetter(MethodString(m)[0]) == Some(Assumed(m, 1))
    ensures MethodString(m)[0] == 'H' ==> m == HEAD && MethodString(m)[1] == 'E' && Assumed(m, 2) == HEAD
  {
    FirstOfHead(m);
    FirstBranch(m);
  }

  lemma FirstOfHead(m: Method)
    ensures MethodString(m)[0] == 'H' ==> m == HEAD && MethodString(m)[1] == 'E' && Assumed(m, 2) == HEAD
  {
  }

  lemma {:induction false} FirstBranch(m: Method)
    ensures FirstLetter(MethodString(m)[0]) == Some(Assumed(m, 1))
    decreases Branch(m).1
  {
    BranchShrinks(m);
    BranchFacts(m);
    MethodLength(m);
    var (parent, b) := Branch(m);
    hide MethodString, FirstLetter, Branch, Redirect;
    if b > 1 {
      MethodLength(parent);
      assert MethodString(m)[0] == MethodString(m)[..b - 1][0] == MethodString(parent)[..b - 1][0] == MethodString(parent)[0];
      FirstBranch(parent);
    }
  }

  /** The method switch only jumps to a method that begins with the letters read so far. */
  lemma RedirectSound(m: Method, i: nat, ch: char)
    requires Redirect(m, i, ch).Some?
    ensures
      var s := MethodString(Redirect(m, i, ch).value);
      i < |s| && i <= |MethodString(m)| && s[..i] == MethodString(m)[..i] && s[i] == ch
  {
    RedirectBranch(m, i, ch);
    BranchFacts(Redirect(m, i, ch).value);
    hide MethodString, Redirect, FirstLetter;
  }

  lemma RedirectBranch(m: Method, i: nat, ch: char)
    requires Redirect(m, i, ch).Some?
    ensures Branch(Redirect(m, i, ch).value) == (m, i + 1) && i >= 1
    ensures CharAt(MethodString(Redirect(m, i, ch).value), i) == ch
  {
    hide Redirect, MethodString, Branch;
    RedirectParent(m, i, ch);
    RedirectLetter(m, i, ch);
  }

  lemma RedirectParent(m: Method, i: nat, ch: char)
    requires Redirect(m, i, ch).Some?
    ensures Branch(Redirect(m, i, ch).value) == (m, i + 1) && i >= 1
  {
  }

  lemma RedirectLetter(m: Method, i: nat, ch: char)
    requires Redirect(m, i, ch).Some?
    ensures CharAt(MethodString(Redirect(m, i, ch).value), i) == ch
  {
    hide Redirect, MethodString;
    if m in {POST, PUT, CONNECT, PROPFIND, LOCK} {
      RedirectLetterOne(m, i, ch);
    } else {
      RedirectLetterTwo(m, i, ch);
    }
  }

  lemma RedirectLetterOne(m: Method, i: nat, ch: char)
    requires Redirect(m, i, ch).Some? && m in {POST, PUT, CONNECT, PROPFIND, LOCK}
    ensures CharAt(MethodString(Redirect(m, i, ch).value), i) == ch
  {
  }

  lemma RedirectLetterTwo(m: Method, i: nat, ch: char)
    requires Redirect(m, i, ch).Some? && m !in {POST, PUT, CONNECT, PROPFIND, LOCK}
    ensures CharAt(MethodString(Redirect(m, i, ch).value), i) == ch
  {
  }

  lemma FirstLetterSound(ch: char)
    requires FirstLetter(ch).Some?
    ensures MethodString(FirstLetter(ch).value)[0] == ch
  {
  }

  /** The states between "H" and the version of a status line, none of which leads to a request target. */
  predicate InHttpWord(s: StatusLineState) {
    s.ResHT? || s.ResHTT? || s.ResHTTP? || s.ResHttpMajor? || s.ResHttpDot? || s.ResHttpMinor? || s.ResHttpEnd?
  }

  /** What has been read of the first token, u, is a prefix of the assumed method, or may still be a response. */
  predicate TokenSoFar(ps: Parser, u: string) {
    match ps.state
    case Start(s) =>
      if s.ReqMethod? then
        u != "" && ps.index == |u| && |u| <= |MethodString(ps.verb)| && u == MethodString(ps.verb)[..|u|]
      else if s.ResOrRespH? then u == "H"
      else (s.StartReq? || s.StartReqOrRes?) && u == ""
    case StatusLine(s) => InHttpWord(s)
    case _ => false
  }

  lemma TokenPass(ps: Parser, skip: bool, u: string, ch: char)
    requires TokenSoFar(ps, u) && ch != SP && (u == "" ==> !IsEol(ch))
    ensures
      var r := PassOf(ps, skip, ch);
      match r.control
      case Next => TokenSoFar(r.ps, u + [ch])
      case Again => u == "" && TokenSoFar(r.ps, u) && r.ps.state == Start(StartReq)
      case Exit => false
      case Fail(_) => true
  {
    hide TargetPass, VersionPass, FieldsPass, EndingPass, ChunkPass, ContentPass, MethodString, Redirect, FirstLetter;
    match ps.state
    case Start(s) =>
      if s.ReqMethod? {
        TokenLetter(ps, u, ch);
      } else if FirstLetter(ch).Some? {
        FirstLetterSound(ch);
        MethodLength(FirstLetter(ch).value);
      }
      if s.ResOrRespH? {
        HeadString();
      }
    case StatusLine(_) =>
  }

  lemma HeadString()
    ensures MethodString(HEAD) == "HEAD"
  {
  }

  lemma TokenLetter(ps: Parser, u: string, ch: char)
    requires ps.state == Start(ReqMethod) && TokenSoFar(ps, u) && ch != SP
    ensures
      var r := MethodChar(ps, ch);
      r.control.Fail? || (r.control.Next? && TokenSoFar(r.ps, u + [ch]))
  {
    hide MethodString, Redirect;
    if Redirect(ps.verb, ps.index, ch).Some? {
      RedirectSound(ps.verb, ps.index, ch);
      var s := MethodString(Redirect(ps.verb, ps.index, ch).value);
      assert s[..|u| + 1] == u + [ch];
    }
    if |u| < |MethodString(ps.verb)| {
      assert MethodString(ps.verb)[..|u| + 1] == MethodString(ps.verb)[..|u|] + [MethodString(ps.verb)[|u|]];
    }
  }

  /** A space ends the token in a request target only after a whole method name. */
  lemma TokenEnd(ps: Parser, skip: bool, u: string)
    requires TokenSoFar(ps, u)
    ensures
      var r := PassOf(ps, skip, SP);
      && !r.control.Exit?
      && (r.control.Again? ==> TokenSoFar(r.ps, u) && r.ps.state == Start(StartReq))
      && (r.control.Next? && r.ps.state == Target(ReqSpacesBeforeUrl) ==> u == MethodString(r.ps.verb))
  {
    hide TargetPass, VersionPass, FieldsPass, EndingPass, ChunkPass, ContentPass, MethodString, Redirect;
    if ps.state == Start(ReqMethod) {
      SpaceNeverRedirects(ps.verb, ps.index);
      MethodLetters(ps.verb);
      assert ps.index < |MethodString(ps.verb)| ==> MethodString(ps.verb)[ps.index] in MethodString(ps.verb);
    }
  }

  lemma SpaceNeverRedirects(m: Method, i: nat)
    ensures Redirect(m, i, SP).None?
  {
  }

  lemma TokenByte(c: Config, u: string, ch: char)
    requires TokenSoFar(c.ps, u) && (u == "" && ch != SP ==> !IsEol(ch))
    ensures
      var (c', control) := Passes(Count(c), ch);
      control.Next? ==>
        && (ch != SP ==> TokenSoFar(c'.ps, u + [ch]))
        && (ch == SP && c'.ps.state == Target(ReqSpacesBeforeUrl) ==> u == MethodString(c'.ps.verb))
  {
    hide PassOf, TokenSoFar, MethodString;
    var c1 := Count(c);
    if ch == SP { TokenEnd(c1.ps, c1.skip, u); } else { TokenPass(c1.ps, c1.skip, u, ch); }
    if PassOf(c1.ps, c1.skip, ch).control.Again? {
      var c2 := After(c1, ch);
      if ch == SP { TokenEnd(c2.ps, c2.skip, u); } else { TokenPass(c2.ps, c2.skip, u, ch); }
      assert Passes(c1, ch) == Passes(c2, ch);
    }
  }

  lemma {:induction false} ReadToken(c: Config, u: string, rest: string)
    requires TokenSoFar(c.ps, u) && SP !in rest && (u == "" && rest != "" ==> !IsEol(rest[0]))
    requires Read(c, rest + [SP]).Some? && Read(c, rest + [SP]).value.ps.state == Target(ReqSpacesBeforeUrl)
    ensures u + rest == MethodString(Read(c, rest + [SP]).value.ps.verb)
    decreases |rest|
  {
    hide Passes, Count, MethodString, TokenSoFar, Redirect;
    if rest == "" {
      assert rest + [SP] == [SP] + [];
      assert u + rest == u;
      TokenByte(c, u, SP);
      ReadFirst(c, SP, []);
    } else {
      assert rest + [SP] == [rest[0]] + (rest[1..] + [SP]);
      TokenByte(c, u, rest[0]);
      ReadFirst(c, rest[0], rest[1..] + [SP]);
      ReadToken(Passes(Count(c), rest[0]).0.(skip := false), u + [rest[0]], rest[1..]);
      assert (u + [rest[0]]) + rest[1..] == u + rest;
    }
  }

  /** The first token of a message is taken for a request method exactly when it is the name of a method,
      and then for that method; every other token fails, or belongs to a response. */
  lemma MethodExact(c: Config, w: string)
    requires AtStart(c) && SP !in w && (w != "" ==> !IsEol(w[0]))
    ensures
      var d := Read(c, w + [SP]);
      (d.Some? && d.value.ps.state == Target(ReqSpacesBeforeUrl)) <==> exists m :: w == MethodString(m)
    ensures forall m :: w == MethodString(m) ==> Like(Read(c, w + [SP]).value, MethodDone(RequestBegun(c), m))
  {
    hide Passes, Count, MethodString, Read;
    forall m | w == MethodString(m)
      ensures Read(c, w + [SP]).Some? && Like(Read(c, w + [SP]).value, MethodDone(RequestBegun(c), m))
    {
      var c' := ReadMethod(c, m);
    }
    var d := Read(c, w + [SP]);
    if d.Some? && d.value.ps.state == Target(ReqSpacesBeforeUrl) {
      ReadToken(c, "", w);
      assert "" + w == w;
    }
  }
}
