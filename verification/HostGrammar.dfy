/** http_parse_host_char: the inner automaton, which takes an authority apart, against its grammar. */
module HostGrammar {
  import opened Characters
  import opened Http

  datatype HostState =
    | UserinfoStart | Userinfo | HostStart | HostV6Start | Host | HostV6 | HostV6End | HostV6ZoneStart | HostV6Zone
    | PortStart | Port

  predicate IsZoneChar(ch: char) {
    IsAlphaNum(ch) || ch == '%' || ch == '.' || ch == '-' || ch == '_' || ch == '~'
  }

  predicate IsAddressChar(ch: char) {
    IsHex(ch) || ch == ':' || ch == '.'
  }

  /** The state after one more byte; None stands for s_http_host_dead. */
  function HostChar(s: HostState, ch: char): Option<HostState> {
    match s
    case UserinfoStart | Userinfo =>
      if ch == '@' then Some(HostStart)
      else if IsUserinfoChar(ch) then Some(Userinfo)
      else None
    case HostStart =>
      if ch == '[' then Some(HostV6Start)
      else if IsHostChar(ch) then Some(Host)
      else None
    case Host =>
      if IsHostChar(ch) then Some(Host)
      else if ch == ':' then Some(PortStart)
      else None
    case HostV6End =>
      if ch == ':' then Some(PortStart) else None
    case HostV6 =>
      if ch == ']' then Some(HostV6End)
      else if IsAddressChar(ch) then Some(HostV6)
      else if ch == '%' then Some(HostV6ZoneStart)
      else None
    case HostV6Start =>
      if IsAddressChar(ch) then Some(HostV6) else None
    case HostV6Zone =>
      if ch == ']' then Some(HostV6End)
      else if IsZoneChar(ch) then Some(HostV6Zone)
      else None
    case HostV6ZoneStart =>
      if IsZoneChar(ch) then Some(HostV6Zone) else None
    case Port | PortStart =>
      if IsNum(ch) then Some(Port) else None
  }

  /** The states in which an authority may end. */
  predicate HostMayEnd(s: HostState) {
    s.Host? || s.HostV6End? || s.Port?
  }

  /** A beginning of an authority: user information and "@", a name or a bracketed address with a zone, ":" and a port. */
  datatype HostText = HostText(userinfo: string, at: bool, open: bool, name: string, percent: bool, zone: string,
                               closed: bool, colon: bool, port: string)

  const NO_HOST := HostText("", false, false, "", false, "", false, false, "")

  /** What comes before the name. */
  function Lead(h: HostText): string {
    h.userinfo + (if h.at then "@" else "") + (if h.open then "[" else "")
  }

  /** The name or address, with its zone. */
  function FullName(h: HostText): string {
    h.name + (if h.percent then "%" + h.zone else "")
  }

  function HostTextOf(h: HostText): string {
    Lead(h) + FullName(h) + Trail(h)
  }

  /** What comes after the name. */
  function Trail(h: HostText): string {
    (if h.closed then "]" else "") + (if h.colon then ":" + h.port else "")
  }

  /** The state of the automaton after a beginning of an authority; `found` says that the authority has an at sign. */
  function HostStateOf(found: bool, h: HostText): HostState {
    if h.port != "" then Port
    else if h.colon then PortStart
    else if h.closed then HostV6End
    else if h.zone != "" then HostV6Zone
    else if h.percent then HostV6ZoneStart
    else if h.name != "" then if h.open then HostV6 else Host
    else if h.open then HostV6Start
    else if h.at then HostStart
    else if h.userinfo != "" then Userinfo
    else if found then UserinfoStart
    else HostStart
  }

  /** A beginning of an authority with one more byte, after which the automaton is in state s. */
  function HostGrow(h: HostText, s: HostState, ch: char): HostText {
    match s
    case UserinfoStart => h
    case Userinfo => h.(userinfo := h.userinfo + [ch])
    case HostStart => h.(at := true)
    case HostV6Start => h.(open := true)
    case Host => h.(name := h.name + [ch])
    case HostV6 => h.(name := h.name + [ch])
    case HostV6End => h.(closed := true)
    case HostV6ZoneStart => h.(percent := true)
    case HostV6Zone => h.(zone := h.zone + [ch])
    case PortStart => h.(colon := true)
    case Port => h.(port := h.port + [ch])
  }

  predicate AllIn(s: string, p: char -> bool) {
    forall i | 0 <= i < |s| :: p(s[i])
  }

  lemma AllInSnoc(s: string, ch: char, p: char -> bool)
    ensures AllIn(s + [ch], p) <==> AllIn(s, p) && p(ch)
  {
    assert forall i | 0 <= i < |s| :: (s + [ch])[i] == s[i];
    assert (s + [ch])[|s|] == ch;
  }

  /** The grammar of authorities, of which h may be a beginning. */
  predicate HostShape(found: bool, h: HostText) {
    && AllIn(h.userinfo, IsUserinfoChar) && (h.userinfo != "" || h.at ==> found)
    && (h.open || h.name != "" ==> found == h.at)
    && AllIn(h.name, if h.open then IsAddressChar else IsHostChar)
    && (h.percent ==> h.open && h.name != "")
    && AllIn(h.zone, IsZoneChar) && (h.zone != "" ==> h.percent)
    && (h.closed ==> h.open && h.name != "" && (h.percent ==> h.zone != ""))
    && (h.colon ==> h.closed || (!h.open && h.name != ""))
    && AllIn(h.port, IsNum) && (h.port != "" ==> h.colon)
  }

  /** Adding ch to h gives h', and the automaton takes it. */
  predicate HostStep(found: bool, h: HostText, ch: char, h': HostText) {
    var t := HostChar(HostStateOf(found, h), ch);
    HostShape(found, h') && t == Some(HostStateOf(found, h')) && HostGrow(h, t.value, ch) == h'
  }

  lemma HostForward(found: bool, h: HostText, ch: char)
    requires HostShape(found, h) && HostChar(HostStateOf(found, h), ch).Some?
    ensures HostStep(found, h, ch, HostGrow(h, HostChar(HostStateOf(found, h), ch).value, ch))
  {
    hide AllIn, IsUserinfoChar, IsAddressChar, IsHostChar, IsZoneChar, IsNum;
    AllInSnoc(h.userinfo, ch, IsUserinfoChar);
    AllInSnoc(h.name, ch, IsAddressChar);
    AllInSnoc(h.name, ch, IsHostChar);
    AllInSnoc(h.zone, ch, IsZoneChar);
    AllInSnoc(h.port, ch, IsNum);
    assert AllIn("", IsAddressChar) && AllIn("", IsHostChar) by { EmptyAllIn(); }
  }

  lemma EmptyAllIn()
    ensures forall p: char -> bool :: AllIn("", p)
  {
  }

  /** Where a byte leads from, and the delimiters. */
  lemma HostCharFacts(s: HostState, ch: char)
    ensures
      var t := HostChar(s, ch);
      t.Some? ==>
        match t.value
        case UserinfoStart => false
        case Userinfo => s.UserinfoStart? || s.Userinfo?
        case HostStart => ch == '@' && (s.UserinfoStart? || s.Userinfo?)
        case HostV6Start => ch == '[' && s.HostStart?
        case Host => s.HostStart? || s.Host?
        case HostV6 => s.HostV6Start? || s.HostV6?
        case HostV6End => ch == ']' && (s.HostV6? || s.HostV6Zone?)
        case HostV6ZoneStart => ch == '%' && s.HostV6?
        case HostV6Zone => s.HostV6ZoneStart? || s.HostV6Zone?
        case PortStart => ch == ':' && (s.Host? || s.HostV6End?)
        case Port => s.PortStart? || s.Port?
  {
    hide IsUserinfoChar, IsAddressChar, IsHostChar, IsZoneChar, IsNum;
  }

  lemma PartsGrow(h: HostText, g: HostText, ch: char)
    requires
      || (Lead(g) == Lead(h) + [ch] && FullName(h) == FullName(g) == "" && Trail(h) == Trail(g) == "")
      || (Lead(g) == Lead(h) && FullName(g) == FullName(h) + [ch] && Trail(h) == Trail(g) == "")
      || (Lead(g) == Lead(h) && FullName(g) == FullName(h) && Trail(g) == Trail(h) + [ch])
    ensures HostTextOf(g) == HostTextOf(h) + [ch]
  {
    hide Lead, FullName, Trail;
  }

  lemma HostTextGrows(found: bool, h: HostText, ch: char)
    requires HostShape(found, h) && HostChar(HostStateOf(found, h), ch).Some?
    ensures HostTextOf(HostGrow(h, HostChar(HostStateOf(found, h), ch).value, ch)) == HostTextOf(h) + [ch]
  {
    hide AllIn, IsUserinfoChar, IsAddressChar, IsHostChar, IsZoneChar, IsNum, HostChar, HostTextOf;
    var s := HostChar(HostStateOf(found, h), ch).value;
    var g := HostGrow(h, s, ch);
    HostCharFacts(HostStateOf(found, h), ch);
    if s.Userinfo? || s.HostStart? || s.HostV6Start? {
      assert Lead(g) == Lead(h) + [ch];
    } else if s.Host? || s.HostV6? || s.HostV6ZoneStart? || s.HostV6Zone? {
      assert FullName(g) == FullName(h) + [ch];
    } else {
      assert Trail(g) == Trail(h) + [ch];
    }
    PartsGrow(h, g, ch);
  }

  /** The bytes of an authority, as the automaton sees them. */
  function HostScan(found: bool, t: string): Option<HostText>
    decreases |t|
  {
    if t == "" then Some(NO_HOST)
    else
      var k := |t| - 1;
      match HostScan(found, t[..k])
      case None => None
      case Some(h) =>
        match HostChar(HostStateOf(found, h), t[k])
        case None => None
        case Some(s) => Some(HostGrow(h, s, t[k]))
  }

  /** What the automaton reads is in the grammar, and nothing is lost. */
  lemma {:induction false} HostScanSound(found: bool, t: string)
    requires HostScan(found, t).Some?
    ensures HostShape(found, HostScan(found, t).value) && HostTextOf(HostScan(found, t).value) == t
    decreases |t|
  {
    hide HostStateOf, HostTextOf, HostGrow, HostShape;
    if t == "" {
      NoHostRead(found);
    } else {
      var k := |t| - 1;
      HostScanSound(found, t[..k]);
      var h := HostScan(found, t[..k]).value;
      HostForward(found, h, t[k]);
      HostTextGrows(found, h, t[k]);
      assert t == t[..k] + [t[k]];
    }
  }

  lemma NoHostRead(found: bool)
    ensures HostShape(found, NO_HOST) && HostTextOf(NO_HOST) == ""
  {
  }

  function WithoutLast(s: string): string
    requires s != ""
  {
    s[..|s| - 1]
  }

  /** The authority without its last byte, and that byte. */
  function HostShrink(h: HostText): (HostText, char)
    requires h != NO_HOST
  {
    if h.port != "" then (h.(port := WithoutLast(h.port)), h.port[|h.port| - 1])
    else if h.colon then (h.(colon := false), ':')
    else if h.closed then (h.(closed := false), ']')
    else if h.zone != "" then (h.(zone := WithoutLast(h.zone)), h.zone[|h.zone| - 1])
    else if h.percent then (h.(percent := false), '%')
    else if h.name != "" then (h.(name := WithoutLast(h.name)), h.name[|h.name| - 1])
    else if h.open then (h.(open := false), '[')
    else if h.at then (h.(at := false), '@')
    else (h.(userinfo := WithoutLast(h.userinfo)), h.userinfo[|h.userinfo| - 1])
  }

  /** The delimiters the automaton looks for are not taken for something else. */
  lemma Delimiters()
    ensures !IsUserinfoChar('@') && !IsHostChar('[') && !IsHostChar(':') && !IsAddressChar(']') && !IsAddressChar('%')
    ensures !IsZoneChar(']')
  {
  }

  lemma PortBack(found: bool, h: HostText)
    requires HostShape(found, h) && (h.port != "" || h.colon || h.closed)
    ensures HostStep(found, HostShrink(h).0, HostShrink(h).1, h)
  {
    Delimiters();
    hide AllIn, IsUserinfoChar, IsAddressChar, IsHostChar, IsZoneChar, IsNum;
    var (m, ch) := HostShrink(h);
    AllInSnoc(m.port, ch, IsNum);
    if h.port != "" { assert m.port + [ch] == h.port; }
  }

  lemma NameBack(found: bool, h: HostText)
    requires HostShape(found, h) && h == NO_HOST.(userinfo := h.userinfo, at := h.at, open := h.open, name := h.name, percent := h.percent, zone := h.zone) && h.name != ""
    ensures HostStep(found, HostShrink(h).0, HostShrink(h).1, h)
  {
    Delimiters();
    hide AllIn, IsUserinfoChar, IsAddressChar, IsHostChar, IsZoneChar, IsNum;
    var (m, ch) := HostShrink(h);
    AllInSnoc(m.name, ch, IsAddressChar);
    AllInSnoc(m.name, ch, IsHostChar);
    AllInSnoc(m.zone, ch, IsZoneChar);
    if h.zone != "" {
      assert m.zone + [ch] == h.zone;
    } else if !h.percent {
      assert m.name + [ch] == h.name;
    }
  }

  lemma LeadBack(found: bool, h: HostText)
    requires HostShape(found, h) && h == NO_HOST.(userinfo := h.userinfo, at := h.at, open := h.open) && h != NO_HOST
    ensures HostStep(found, HostShrink(h).0, HostShrink(h).1, h)
  {
    Delimiters();
    hide AllIn, IsUserinfoChar, IsAddressChar, IsHostChar, IsZoneChar, IsNum;
    var (m, ch) := HostShrink(h);
    AllInSnoc(m.userinfo, ch, IsUserinfoChar);
    EmptyAllIn();
    if !h.open && !h.at { assert m.userinfo + [ch] == h.userinfo; }
  }

  lemma HostBack(found: bool, h: HostText)
    requires HostShape(found, h) && h != NO_HOST
    ensures HostStep(found, HostShrink(h).0, HostShrink(h).1, h)
  {
    hide HostStep, HostShrink, AllIn;
    if h.port != "" || h.colon || h.closed {
      PortBack(found, h);
    } else if h.name != "" {
      NameBack(found, h);
    } else {
      LeadBack(found, h);
    }
  }

  lemma SomeText(h: HostText)
    requires h != NO_HOST && (h.zone != "" ==> h.percent) && (h.port != "" ==> h.colon)
    ensures HostTextOf(h) != ""
  {
  }

  /** Everything in the grammar is read as it was written. */
  lemma {:induction false} HostScanComplete(found: bool, h: HostText)
    requires HostShape(found, h)
    ensures HostScan(found, HostTextOf(h)) == Some(h)
    decreases |HostTextOf(h)|
  {
    hide HostStateOf, HostTextOf, HostGrow, HostShrink, AllIn;
    if h == NO_HOST {
      NoHostRead(found);
    } else {
      SomeText(h);
      HostBack(found, h);
      var (m, ch) := HostShrink(h);
      hide HostShape;
      BackIsShape(found, h);
      HostTextGrows(found, m, ch);
      HostScanComplete(found, m);
      assert HostTextOf(h)[..|HostTextOf(h)| - 1] == HostTextOf(m);
    }
  }

  lemma BackIsShape(found: bool, h: HostText)
    requires HostShape(found, h) && h != NO_HOST
    ensures HostShape(found, HostShrink(h).0)
  {
  }
}
