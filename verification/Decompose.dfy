/** What http_parser_parse_url accepts, and what it finds: exactly the URLs of the grammar whose port fits in 16 bits,
    each taken apart in the one way in which its parts print it. */
module Decompose {
  import opened Characters
  import opened Http
  import opened Values
  import opened UrlGrammar
  import opened HostGrammar

  datatype Decomposition = Decomposition(url: UrlText, host: HostText)

  const MAX_PORT: nat := 0xFFFF

  /** A whole authority. */
  predicate WholeHost(h: HostText) {
    HostShape(h.at, h) && HostMayEnd(HostStateOf(h.at, h))
  }

  /** CONNECT takes nothing but a host and a port. */
  predicate OnlyHostPort(d: Decomposition) {
    && d.host.name != "" && d.host.port != "" && d.host.userinfo == ""
    && d.url.path == "" && d.url.query == "" && d.url.fragment == ""
  }

  /** The grammar of URLs. */
  predicate WellFormed(connect: bool, d: Decomposition) {
    && Frame(connect, d.url) && d.url.authority == HostTextOf(d.host)
    && (d.url.schema != "" ==> d.host != NO_HOST)
    && (d.host != NO_HOST ==> WholeHost(d.host))
    && (connect ==> OnlyHostPort(d))
  }

  /** What a whole authority consists of, part by part: user information only before an at sign; a name, or an address in
      closed brackets with an optional zone that is not empty; and an optional port that is not empty. */
  lemma WholeHostExact(h: HostText)
    ensures
      WholeHost(h) <==>
        && (forall i | 0 <= i < |h.userinfo| :: IsUserinfoChar(h.userinfo[i])) && (h.userinfo != "" ==> h.at)
        && h.name != "" && (forall i | 0 <= i < |h.name| :: if h.open then IsAddressChar(h.name[i]) else IsHostChar(h.name[i]))
        && h.open == h.closed && (h.percent <==> h.zone != "") && (h.percent ==> h.open)
        && (forall i | 0 <= i < |h.zone| :: IsZoneChar(h.zone[i]))
        && (h.colon <==> h.port != "") && (forall i | 0 <= i < |h.port| :: IsNum(h.port[i]))
  {
    hide IsUserinfoChar, IsAddressChar, IsHostChar, IsZoneChar, IsNum;
  }

  lemma PortDigits(found: bool, h: HostText)
    requires HostShape(found, h)
    ensures AllDigits(h.port)
  {
  }

  /** The number a port denotes; 0 if there is none. */
  function PortNumber(h: HostText): nat {
    if AllDigits(h.port) then DecValue(h.port) else 0
  }

  /** The authority within a URL, if it can be taken apart. */
  function HostOf(authority: string): Option<HostText> {
    if authority == "" then Some(NO_HOST)
    else
      var found := '@' in authority;
      match HostScan(found, authority)
      case None => None
      case Some(h) => if HostMayEnd(HostStateOf(found, h)) then Some(h) else None
  }

  /** What http_parser_parse_url finds; None stands for its error return. */
  function Decomposed(connect: bool, buf: string): Option<Decomposition> {
    match UrlScan(connect, buf)
    case None => None
    case Some(l) =>
      if l.schema != "" && l.authority == "" then None
      else
        match HostOf(l.authority)
        case None => None
        case Some(h) =>
          var d := Decomposition(l, h);
          if (connect && !OnlyHostPort(d)) || PortNumber(h) > MAX_PORT then None else Some(d)
  }

  lemma HostCharClass(s: HostState, ch: char)
    requires HostChar(s, ch).Some?
    ensures AuthorityChar(ch)
    ensures ch == '@' <==> HostChar(s, ch).value.HostStart?
  {
  }

  /** What the inner automaton takes, the outer one takes too; and an at sign is always seen as one. */
  lemma {:induction false} HostScanChars(found: bool, t: string)
    requires HostScan(found, t).Some?
    ensures GoodAuthority(t) && ('@' in t <==> HostScan(found, t).value.at)
    decreases |t|
  {
    hide HostChar, AuthorityChar, HostStateOf, HostGrow, HostShape, HostTextOf, GoodAuthority;
    NoHostRead(found);
    EmptyAuthority();
    if t != "" {
      var k := |t| - 1;
      var u := t[..k];
      HostScanChars(found, u);
      HostScanSound(found, u);
      var h := HostScan(found, u).value;
      var s := HostStateOf(found, h);
      HostCharClass(s, t[k]);
      HostCharFacts(s, t[k]);
      assert t == u + [t[k]];
      AuthoritySnoc(u, t[k]);
      GrowAt(h, HostChar(s, t[k]).value, t[k]);
      if t[k] == '@' && u != "" {
        LastOfUserinfo(found, h);
      }
    }
  }

  lemma EmptyAuthority()
    ensures GoodAuthority("")
  {
  }

  lemma GrowAt(h: HostText, s: HostState, ch: char)
    ensures HostGrow(h, s, ch).at == (h.at || s.HostStart?)
  {
  }

  lemma LastOfUserinfo(found: bool, h: HostText)
    requires HostShape(found, h) && HostStateOf(found, h) in {UserinfoStart, Userinfo} && HostTextOf(h) != ""
    ensures HostTextOf(h)[|HostTextOf(h)| - 1] != '@'
  {
    assert HostTextOf(h) == h.userinfo;
  }

  lemma WholeHostFound(h: HostText, found: bool)
    requires HostShape(found, h) && HostMayEnd(HostStateOf(found, h))
    ensures found == h.at && WholeHost(h) && h != NO_HOST
  {
  }

  lemma HostOfExact(authority: string, h: HostText)
    ensures HostOf(authority) == Some(h) <==> HostTextOf(h) == authority && (h != NO_HOST ==> WholeHost(h))
    ensures HostTextOf(h) == authority && (h != NO_HOST ==> WholeHost(h)) ==> GoodAuthority(authority)
  {
    hide HostShape, HostTextOf, HostMayEnd, HostStateOf;
    var found := '@' in authority;
    NoHostRead(found);
    if HostOf(authority) == Some(h) && authority != "" {
      HostScanSound(found, authority);
      WholeHostFound(h, found);
    }
    if HostTextOf(h) == authority && h != NO_HOST && WholeHost(h) {
      HostScanComplete(h.at, h);
      HostScanChars(h.at, authority);
      WholeHostFound(h, h.at);
    }
  }

  /** The URL decomposer is exact: it finds d in a buffer if and only if d is well formed, prints as the buffer, and has
      a port of at most 65535. So nothing of an accepted URL is lost, every well-formed URL is read back as it was
      printed, and an otherwise well-formed one is refused exactly when its port is too large. */
  lemma UrlExact(connect: bool, buf: string, d: Decomposition)
    ensures Decomposed(connect, buf) == Some(d)
       <==> WellFormed(connect, d) && Text(d.url) == buf && PortNumber(d.host) <= MAX_PORT
  {
    hide Text, HostTextOf, WholeHost, Frame, GoodAuthority, OnlyHostPort, PortNumber, HostOf, UrlScan;
    HostOfExact(d.url.authority, d.host);
    HostOfNothing();
    if Decomposed(connect, buf) == Some(d) {
      UrlScanSound(connect, buf);
    }
    if WellFormed(connect, d) && Text(d.url) == buf {
      UrlScanComplete(connect, d.url);
    }
  }

  lemma HostOfNothing()
    ensures HostTextOf(NO_HOST) == ""
    ensures forall h :: HostTextOf(h) == "" && (h != NO_HOST ==> WholeHost(h)) ==> h == NO_HOST
  {
    forall h | HostTextOf(h) == "" && (h != NO_HOST ==> WholeHost(h)) ensures h == NO_HOST {
      if h != NO_HOST {
        SomeText(h);
      }
    }
  }
}
