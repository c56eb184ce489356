/** Request targets and the URL decomposer agree: what the parser delivers as on_url, http_parser_parse_url can take. */
module Targets {
  import opened Characters
  import opened Http
  import opened UrlChar
  import opened Machine
  import opened Reading
  import opened Values
  import opened UrlGrammar
  import opened HostGrammar
  import opened Decompose

  predicate NoBlank(w: string) {
    SP !in w && CR !in w && LF !in w
  }

  lemma TargetPassOf(ps: Parser, skip: bool, ch: char)
    requires ps.state.Target?
    ensures PassOf(ps, skip, ch) == TargetPass(ps, ps.state.url, ch)
  {
    hide StartPass, StatusLinePass, VersionPass, FieldsPass, EndingPass, ChunkPass, ContentPass, TargetPass;
  }

  /** A parser that has read w of a request target; that of CONNECT is an authority. */
  predicate InTarget(c: Config, start: Config, w: string) {
    var connect := start.ps.verb.CONNECT?;
    && UrlScan(connect, w).Some?
    && c.ps == start.ps.(state := Target(if w == "" then ReqSpacesBeforeUrl else StateOf(connect, UrlScan(connect, w).value)))
    && c.calls == start.calls && c.pend == (if w == "" then None else Some(w)) && !c.skip
  }

  predicate BeforeTarget(c: Config) {
    c.ps.state == Target(ReqSpacesBeforeUrl) && c.pend == None && !c.skip
  }

  /** The parser and the decomposer read a target with the same automaton. */
  lemma {:induction false} ReadTarget(c: Config, w: string)
    requires BeforeTarget(c) && NoBlank(w)
    ensures Read(c, w).Some? <==> UrlScan(c.ps.verb.CONNECT?, w).Some?
    ensures Read(c, w).Some? ==> InTarget(Read(c, w).value, c, w)
    decreases |w|
  {
    hide Read, UrlScan, StateOf, InTarget;
    if w == "" {
      NoTarget(c);
    } else {
      var k := |w| - 1;
      var (u, ch) := (w[..k], w[k]);
      assert ch in w && (forall x | x in u :: x in w);
      assert w == u + [ch];
      ReadTarget(c, u);
      ReadJoin(c, u, [ch]);
      ScanSnoc(c.ps.verb.CONNECT?, u, ch);
      if Read(c, u).Some? {
        ReadTargetByte(c, Read(c, u).value, u, ch);
      }
    }
  }

  lemma NoTarget(c: Config)
    requires BeforeTarget(c)
    ensures Read(c, "") == Some(c) && UrlScan(c.ps.verb.CONNECT?, "").Some? && InTarget(c, c, "")
  {
    StartState(c.ps.verb.CONNECT?);
  }

  lemma ScanSnoc(connect: bool, u: string, ch: char)
    ensures
      UrlScan(connect, u + [ch])
   == match UrlScan(connect, u)
      case None => None
      case Some(l) =>
        match ParseUrlChar(StateOf(connect, l), ch)
        case None => None
        case Some(s) => Some(Grow(l, s, ch))
  {
    hide ParseUrlChar, StateOf, Grow;
    assert (u + [ch])[..|u|] == u;
  }

  lemma ReadTargetByte(c: Config, d: Config, u: string, ch: char)
    requires BeforeTarget(c) && InTarget(d, c, u) && ch != SP && !IsEol(ch)
    ensures Read(d, [ch]).Some? <==> UrlScan(c.ps.verb.CONNECT?, u + [ch]).Some?
    ensures Read(d, [ch]).Some? ==> InTarget(Read(d, [ch]).value, c, u + [ch])
  {
    hide PassOf, Read, ParseUrlChar, Grow, StateOf, UrlScan, Shape;
    var connect := c.ps.verb.CONNECT?;
    var l := UrlScan(connect, u).value;
    StartState(connect);
    TargetByte(d.ps, d.skip, ch, connect, l, u == "");
    ScanSnoc(connect, u, ch);
    assert [ch] + [] == [ch];
    if ParseUrlChar(StateOf(connect, l), ch) == None {
      FailedRead(d, ch, []);
    } else {
      var e := ReadPass(d, ch, PassOf(d.ps, d.skip, ch), []);
      ReadNothing(e);
      UrlScanSound(connect, u);
      StepForward(connect, l, ch);
      assert d.calls + [] == d.calls;
      assert "" + [ch] == [ch];
    }
  }

  /** One byte of a target of which l has been read. */
  lemma TargetByte(ps: Parser, skip: bool, ch: char, connect: bool, l: UrlText, first: bool)
    requires ch != SP && !IsEol(ch) && connect == ps.verb.CONNECT? && (first ==> l == NO_URL)
    requires ps.state == Target(if first then ReqSpacesBeforeUrl else StateOf(connect, l))
    ensures
      PassOf(ps, skip, ch)
   == match ParseUrlChar(StateOf(connect, l), ch)
      case None => Error(ps, INVALID_URL)
      case Some(s) => Pass(ps.(state := Target(s)), Byte(Kind.Url), false, Next)
  {
    StartState(connect);
    TargetPassOf(ps, skip, ch);
    if !first && StateOf(connect, l).ReqSpacesBeforeUrl? { NotConnect(connect, l); }
    hide PassOf, ParseUrlChar, StateOf;
  }

  lemma NotConnect(connect: bool, l: UrlText)
    requires StateOf(connect, l).ReqSpacesBeforeUrl?
    ensures !connect
  {
  }

  lemma StartState(connect: bool)
    ensures UrlScan(connect, "") == Some(NO_URL) && StateOf(connect, NO_URL) == if connect then ReqServerStart else ReqSpacesBeforeUrl
  {
  }

  lemma FirstByte(l: UrlText)
    requires Frame(false, l) && Text(l) != ""
    ensures l.schema != "" ==> Text(l)[0] == l.schema[0] && IsAlpha(l.schema[0])
    ensures l.schema == "" ==> l.authority == "" && l.path != "" && Text(l)[0] == l.path[0] && l.path[0] in {'/', '*'}
  {
    hide Hashes;
  }

  /** A target that starts with a slash or an asterisk has a path and nothing before it; any other has a schema. */
  lemma PathOrSchema(w: string)
    requires UrlScan(false, w).Some? && w != ""
    ensures
      var l := UrlScan(false, w).value;
      if w[0] in {'/', '*'} then
        l.schema == "" && l.path != "" && Decomposed(false, w) == Some(Decomposition(l, NO_HOST))
      else
        l.schema != ""
  {
    UrlScanSound(false, w);
    FirstByte(UrlScan(false, w).value);
    hide Text, UrlScan, GoodAuthority, UrlChars;
  }

  /** The parser after a target: a space leads to the version; a line end makes the request one of HTTP/0.9. */
  function AfterTarget(ps: Parser, end: char): Parser {
    if end == SP then ps.(state := Version(ReqHttpStart))
    else ps.(major := 0, minor := 9, state := if end == CR then Version(ReqLineAlmostDone) else Fields(FieldStart))
  }

  lemma TargetEnds(ps: Parser, skip: bool, end: char)
    requires ps.state.Target? && !ps.state.url.ReqSpacesBeforeUrl? && end in {SP, CR, LF}
    ensures PassOf(ps, skip, end).control.Next? || PassOf(ps, skip, end).control.Fail?
    ensures PassOf(ps, skip, end).control.Next? ==>
      PassOf(ps, skip, end) == Pass(AfterTarget(ps, end), Deliver(Kind.Url), false, Next)
  {
    TargetPassOf(ps, skip, end);
    hide PassOf;
  }

  /** A complete target that the parser delivers as on_url is read by the loop of the decomposer too. If it is not that of
      CONNECT and starts with a slash or an asterisk, it is accepted, with a path and without schema, host or port. Any
      other one can only be refused for its authority: because it has none, because its host or user information is not
      well formed, or because its port is too large. */
  lemma TargetsAgree(c: Config, w: string, end: char)
    requires BeforeTarget(c) && NoBlank(w) && w != "" && end in {SP, CR, LF} && Read(c, w + [end]).Some?
    ensures Read(c, w + [end]).value.calls == c.calls + [Data(Kind.Url, w)]
    ensures Read(c, w + [end]).value.ps == AfterTarget(c.ps, end)
    ensures UrlScan(c.ps.verb.CONNECT?, w).Some?
    ensures !c.ps.verb.CONNECT? && w[0] in {'/', '*'} ==>
      var d := Decomposed(false, w);
      d.Some? && d.value.url.path != "" && d.value.url.schema == "" && d.value.host == NO_HOST
    ensures !c.ps.verb.CONNECT? && w[0] !in {'/', '*'} ==>
      var a := UrlScan(false, w).value.authority;
      Decomposed(false, w) == None <==> a == "" || HostOf(a) == None || PortNumber(HostOf(a).value) > MAX_PORT
  {
    hide PassOf, Read, UrlScan, StateOf, HostOf, PortNumber;
    var connect := c.ps.verb.CONNECT?;
    ReadJoin(c, w, [end]);
    ReadTarget(c, w);
    var d := Read(c, w).value;
    NotAtStart(connect, w);
    assert [end] + [] == [end];
    TargetEnds(d.ps, d.skip, end);
    if PassOf(d.ps, d.skip, end).control.Fail? {
      FailedRead(d, end, []);
    } else {
      var e := ReadPass(d, end, PassOf(d.ps, d.skip, end), []);
      ReadNothing(e);
    }
    if !connect { PathOrSchema(w); }
  }

  lemma NotAtStart(connect: bool, w: string)
    requires w != "" && UrlScan(connect, w).Some?
    ensures !StateOf(connect, UrlScan(connect, w).value).ReqSpacesBeforeUrl?
  {
    var k := |w| - 1;
    var l := UrlScan(connect, w[..k]).value;
    UrlScanSound(connect, w[..k]);
    StepForward(connect, l, w[k]);
    CharFacts(StateOf(connect, l), w[k]);
    hide StateOf, Grow, Shape;
  }

  /** A complete target followed by a space. */
  predicate GoodTarget(connect: bool, url: string) {
    url != "" && NoBlank(url) && UrlScan(connect, url).Some? && UrlMayEnd(StateOf(connect, UrlScan(connect, url).value))
  }

  lemma ReadGoodTarget(c: Config, url: string, rest: string) returns (d: Config)
    requires BeforeTarget(c) && GoodTarget(c.ps.verb.CONNECT?, url)
    ensures Read(c, url + ([SP] + rest)) == Read(d, rest)
    ensures d.ps == c.ps.(state := Version(ReqHttpStart)) && d.calls == c.calls + [Data(Kind.Url, url)] && d.pend == None && !d.skip
  {
    hide Read, UrlScan, PassOf, StateOf;
    ReadTarget(c, url);
    ReadJoin(c, url, [SP] + rest);
    var c1 := Read(c, url).value;
    TargetPassOf(c1.ps, c1.skip, SP);
    d := ReadPass(c1, SP, PassOf(c1.ps, c1.skip, SP), rest);
  }

  /** More spaces before a target are passed over. */
  lemma {:induction false} ReadTargetGap(c: Config, gap: string, rest: string) returns (d: Config)
    requires BeforeTarget(c) && AllSpaces(gap)
    ensures Read(c, gap + rest) == Read(d, rest) && d.ps == c.ps && d.calls == c.calls && BeforeTarget(d)
    decreases |gap|
  {
    hide Read, PassOf;
    if gap == "" {
      assert gap + rest == rest;
      d := c;
    } else {
      assert gap + rest == [SP] + (gap[1..] + rest);
      TargetPassOf(c.ps, c.skip, SP);
      var c1 := ReadPass(c, SP, Stay(c.ps), gap[1..] + rest);
      assert c.calls + [] == c.calls;
      d := ReadTargetGap(c1, gap[1..], rest);
    }
  }

  /** A target that ends its line. */
  lemma ReadLastTarget(c: Config, url: string, end: char, rest: string) returns (d: Config)
    requires BeforeTarget(c) && GoodTarget(c.ps.verb.CONNECT?, url) && IsEol(end)
    ensures Read(c, url + ([end] + rest)) == Read(d, rest)
    ensures d.ps == AfterTarget(c.ps, end) && d.calls == c.calls + [Data(Kind.Url, url)] && d.pend == None && !d.skip
  {
    hide Read, UrlScan, PassOf, StateOf;
    ReadTarget(c, url);
    ReadJoin(c, url, [end] + rest);
    var c1 := Read(c, url).value;
    TargetPassOf(c1.ps, c1.skip, end);
    d := ReadPass(c1, end, PassOf(c1.ps, c1.skip, end), rest);
  }
}
