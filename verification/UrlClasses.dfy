/** Which bytes the URL decomposer takes in each component, with the alphabets written out: for every text between its
    delimiters, it is taken if and only if all of its bytes are in the alphabet of the component. */
module UrlClasses {
  import opened Characters
  import opened Http
  import opened UrlChar
  import opened Values
  import opened UrlGrammar
  import opened HostGrammar
  import opened Decompose
  import opened Targets
  import opened Alphabets

  /** All bytes of w are in the alphabet. */
  predicate Over(w: string, alphabet: string) {
    forall i | 0 <= i < |w| :: w[i] in alphabet
  }

  /** No byte of w is a delimiter. */
  predicate Without(w: string, delimiters: string) {
    forall i | 0 <= i < |w| :: w[i] !in delimiters
  }

  lemma OverOne(ch: char, w: string, alphabet: string)
    ensures Over([ch] + w, alphabet) <==> ch in alphabet && Over(w, alphabet)
    ensures Without([ch] + w, alphabet) <==> ch !in alphabet && Without(w, alphabet)
  {
    var v := [ch] + w;
    assert v[0] == ch && forall i | 0 <= i < |w| :: v[i + 1] == w[i];
    if Over(v, alphabet) { forall i | 0 <= i < |w| ensures w[i] in alphabet { assert v[i + 1] in alphabet; } }
    if Without(v, alphabet) { forall i | 0 <= i < |w| ensures w[i] !in alphabet { assert v[i + 1] !in alphabet; } }
  }

  lemma OverNone()
    ensures forall alphabet :: Over("", alphabet)
  {
  }

  // The outer automaton from a beginning on

  function Goes(l: UrlText, w: string): Option<UrlText>
    decreases |w|
  {
    if w == "" then Some(l)
    else
      match ParseUrlChar(StateOf(false, l), w[0])
      case None => None
      case Some(s) => Goes(Grow(l, s, w[0]), w[1..])
  }

  lemma {:induction false} ScanGoes(t: string, w: string)
    ensures UrlScan(false, t + w) == match UrlScan(false, t) case None => None case Some(l) => Goes(l, w)
    decreases |w|
  {
    hide UrlScan, ParseUrlChar, StateOf, Grow;
    if w == "" {
      assert t + w == t;
    } else {
      assert t + w == (t + [w[0]]) + w[1..];
      ScanSnoc(false, t, w[0]);
      ScanGoes(t + [w[0]], w[1..]);
    }
  }

  lemma {:induction false} GoesJoin(l: UrlText, v: string, w: string)
    ensures Goes(l, v + w) == match Goes(l, v) case None => None case Some(k) => Goes(k, w)
    decreases |v|
  {
    hide ParseUrlChar, StateOf, Grow;
    if v == "" {
      assert v + w == w;
    } else {
      assert (v + w)[0] == v[0] && (v + w)[1..] == v[1..] + w;
      match ParseUrlChar(StateOf(false, l), v[0])
      case None =>
      case Some(s) => GoesJoin(Grow(l, s, v[0]), v[1..], w);
    }
  }

  lemma GoesOne(l: UrlText, ch: char)
    ensures Goes(l, [ch]) == match ParseUrlChar(StateOf(false, l), ch) case None => None case Some(s) => Some(Grow(l, s, ch))
  {
    hide ParseUrlChar, StateOf, Grow;
    assert [ch][1..] == "";
  }

  /** Within a path. */
  predicate InPath(l: UrlText) {
    l.path != "" && !l.question && l.query == "" && l.hashes == 0 && l.fragment == ""
  }

  lemma {:induction false} PathGoes(l: UrlText, w: string)
    requires InPath(l) && Without(w, "?#")
    ensures Goes(l, w) == if Over(w, URL) then Some(l.(path := l.path + w)) else None
    decreases |w|
  {
    hide URL;
    if w == "" {
      assert l.path + w == l.path;
    } else {
      var ch := w[0];
      assert w == [ch] + w[1..];
      OverOne(ch, w[1..], URL);
      OverOne(ch, w[1..], "?#");
      Classes(ch);
      UrlBytes(ch);
      assert l.path + w == l.path + [ch] + w[1..];
      hide IsUrlChar;
      if ch in URL { PathGoes(l.(path := l.path + [ch]), w[1..]); }
    }
  }

  lemma UrlBytes(ch: char)
    ensures IsUrlChar(ch) ==> ch != SP && !IsEol(ch) && ch != HT && ch != '\U{0C}'
  {
  }

  predicate InQuery(l: UrlText) {
    l.question && l.hashes == 0 && l.fragment == ""
  }

  lemma {:induction false} QueryGoes(l: UrlText, w: string)
    requires InQuery(l) && Without(w, "#")
    ensures Goes(l, w) == if Over(w, URL + "?") then Some(l.(query := l.query + w)) else None
    decreases |w|
  {
    hide URL, IsUrlChar, Without, Over;
    OverNone();
    if w == "" {
      assert l.query + w == l.query;
    } else {
      var ch := w[0];
      assert w == [ch] + w[1..];
      OverOne(ch, w[1..], URL + "?");
      OverOne(ch, w[1..], "#");
      Classes(ch);
      UrlBytes(ch);
      assert l.query + w == l.query + [ch] + w[1..];
      if ch in URL + "?" { QueryGoes(l.(query := l.query + [ch]), w[1..]); }
    }
  }

  /** Within a fragment that has begun. */
  lemma {:induction false} FragmentGoes(l: UrlText, w: string)
    requires l.fragment != ""
    ensures Goes(l, w) == if Over(w, URL + "?#") then Some(l.(fragment := l.fragment + w)) else None
    decreases |w|
  {
    hide URL, IsUrlChar, Without, Over;
    OverNone();
    if w == "" {
      assert l.fragment + w == l.fragment;
    } else {
      var ch := w[0];
      assert w == [ch] + w[1..];
      OverOne(ch, w[1..], URL + "?#");
      Classes(ch);
      UrlBytes(ch);
      assert l.fragment + w == l.fragment + [ch] + w[1..];
      if ch in URL + "?#" { FragmentGoes(l.(fragment := l.fragment + [ch]), w[1..]); }
    }
  }

  predicate InSchema(l: UrlText) {
    l == NO_URL.(schema := l.schema)
  }

  lemma {:induction false} SchemaGoes(l: UrlText, w: string)
    requires InSchema(l) && Without(w, ":/*")
    ensures Goes(l, w) == if Over(w, SMALL + CAPITAL) then Some(l.(schema := l.schema + w)) else None
    decreases |w|
  {
    hide SMALL, CAPITAL;
    if w == "" {
      assert l.schema + w == l.schema;
    } else {
      var ch := w[0];
      assert w == [ch] + w[1..];
      OverOne(ch, w[1..], SMALL + CAPITAL);
      OverOne(ch, w[1..], ":/*");
      Classes(ch);
      assert ch != ':' && ch != '/' && ch != '*' by { assert ch !in ":/*"; }
      assert l.schema + w == l.schema + [ch] + w[1..];
      if ch in SMALL + CAPITAL { SchemaGoes(l.(schema := l.schema + [ch]), w[1..]); }
    }
  }

  /** What the outer automaton takes in an authority that holds no at sign so far, or ends with none. */
  const AUTHORITY := USERINFO + "[]"

  predicate InAuthority(l: UrlText) {
    && l == NO_URL.(schema := l.schema, seps := 3, authority := l.authority)
  }

  lemma {:induction false} AuthorityGoes(l: UrlText, w: string)
    requires InAuthority(l) && Without(w, "/?#@")
    ensures Goes(l, w) == if Over(w, AUTHORITY) then Some(l.(authority := l.authority + w)) else None
    decreases |w|
  {
    hide AUTHORITY, USERINFO;
    if w == "" {
      assert l.authority + w == l.authority;
    } else {
      var ch := w[0];
      assert w == [ch] + w[1..];
      OverOne(ch, w[1..], AUTHORITY);
      OverOne(ch, w[1..], "/?#@");
      AuthorityBytes(ch);
      assert l.authority + w == l.authority + [ch] + w[1..];
      AuthorityStep(l, ch);
      hide ParseUrlChar, StateOf, Grow;
      if ch in AUTHORITY { AuthorityGoes(l.(authority := l.authority + [ch]), w[1..]); }
    }
  }

  lemma AuthorityBytes(ch: char)
    ensures ch in AUTHORITY <==> IsUserinfoChar(ch) || ch == '[' || ch == ']'
    ensures ch !in "/?#@" <==> ch != '/' && ch != '?' && ch != '#' && ch != '@'
  {
    Classes(ch);
    hide USERINFO;
  }

  lemma AuthorityStep(l: UrlText, ch: char)
    requires InAuthority(l) && ch != '/' && ch != '?' && ch != '#' && ch != '@'
    ensures
      match ParseUrlChar(StateOf(false, l), ch)
      case None => !(IsUserinfoChar(ch) || ch == '[' || ch == ']')
      case Some(s) => (IsUserinfoChar(ch) || ch == '[' || ch == ']') && Grow(l, s, ch) == l.(authority := l.authority + [ch])
  {
    hide IsAlphaNum, IsMark;
    if IsUserinfoChar(ch) { UserinfoVisible(ch); }
  }

  lemma UserinfoVisible(ch: char)
    requires IsUserinfoChar(ch)
    ensures ch != SP && !IsEol(ch) && ch != HT && ch != '\U{0C}'
  {
  }

  // The inner automaton from a beginning on

  function HostGoes(found: bool, h: HostText, w: string): Option<HostText>
    decreases |w|
  {
    if w == "" then Some(h)
    else
      match HostChar(HostStateOf(found, h), w[0])
      case None => None
      case Some(s) => HostGoes(found, HostGrow(h, s, w[0]), w[1..])
  }

  lemma HostSnoc(found: bool, t: string, ch: char)
    ensures
      HostScan(found, t + [ch])
   == match HostScan(found, t)
      case None => None
      case Some(h) =>
        match HostChar(HostStateOf(found, h), ch)
        case None => None
        case Some(s) => Some(HostGrow(h, s, ch))
  {
    hide HostChar, HostStateOf, HostGrow;
    assert (t + [ch])[..|t|] == t;
  }

  lemma {:induction false} HostScanGoes(found: bool, t: string, w: string)
    ensures HostScan(found, t + w) == match HostScan(found, t) case None => None case Some(h) => HostGoes(found, h, w)
    decreases |w|
  {
    hide HostScan, HostChar, HostStateOf, HostGrow;
    if w == "" {
      assert t + w == t;
    } else {
      assert t + w == (t + [w[0]]) + w[1..];
      HostSnoc(found, t, w[0]);
      HostScanGoes(found, t + [w[0]], w[1..]);
    }
  }

  lemma {:induction false} HostGoesJoin(found: bool, h: HostText, v: string, w: string)
    ensures HostGoes(found, h, v + w) == match HostGoes(found, h, v) case None => None case Some(k) => HostGoes(found, k, w)
    decreases |v|
  {
    hide HostChar, HostStateOf, HostGrow;
    if v == "" {
      assert v + w == w;
    } else {
      assert (v + w)[0] == v[0] && (v + w)[1..] == v[1..] + w;
      match HostChar(HostStateOf(found, h), v[0])
      case None =>
      case Some(s) => HostGoesJoin(found, HostGrow(h, s, v[0]), v[1..], w);
    }
  }

  lemma HostGoesOne(found: bool, h: HostText, ch: char)
    ensures HostGoes(found, h, [ch]) == match HostChar(HostStateOf(found, h), ch) case None => None case Some(s) => Some(HostGrow(h, s, ch))
  {
    hide HostChar, HostStateOf, HostGrow;
    assert [ch][1..] == "";
  }

  /** Within a name. */
  lemma {:induction false} NameGoes(found: bool, h: HostText, w: string)
    requires h == NO_HOST.(userinfo := h.userinfo, at := h.at, name := h.name) && (found ==> h.at) && (!h.at ==> h.userinfo == "") && Without(w, ":[")
    ensures HostGoes(found, h, w) == if Over(w, HOST) then Some(h.(name := h.name + w)) else None
    decreases |w|
  {
    hide HOST, IsHostChar, Without, Over;
    OverNone();
    if w == "" {
      assert h.name + w == h.name;
    } else {
      var ch := w[0];
      assert w == [ch] + w[1..];
      OverOne(ch, w[1..], HOST);
      OverOne(ch, w[1..], ":[");
      Classes(ch);
      assert ch != ':' && ch != '[' by { assert ch !in ":["; }
      assert h.name + w == h.name + [ch] + w[1..];
      if ch in HOST { NameGoes(found, h.(name := h.name + [ch]), w[1..]); }
    }
  }

  lemma {:induction false} UserinfoGoes(h: HostText, w: string)
    requires h == NO_HOST.(userinfo := h.userinfo) && Without(w, "@")
    ensures HostGoes(true, h, w) == if Over(w, USERINFO) then Some(h.(userinfo := h.userinfo + w)) else None
    decreases |w|
  {
    hide USERINFO;
    if w == "" {
      assert h.userinfo + w == h.userinfo;
    } else {
      var ch := w[0];
      assert w == [ch] + w[1..];
      OverOne(ch, w[1..], USERINFO);
      OverOne(ch, w[1..], "@");
      Classes(ch);
      assert ch != '@' by { assert ch !in "@"; }
      assert h.userinfo + w == h.userinfo + [ch] + w[1..];
      hide IsUserinfoChar;
      if ch in USERINFO { UserinfoGoes(h.(userinfo := h.userinfo + [ch]), w[1..]); }
    }
  }

  lemma {:induction false} AddressGoes(h: HostText, w: string)
    requires h == NO_HOST.(open := true, name := h.name) && Without(w, "]%")
    ensures HostGoes(false, h, w) == if Over(w, ADDRESS) then Some(h.(name := h.name + w)) else None
    decreases |w|
  {
    hide ADDRESS;
    if w == "" {
      assert h.name + w == h.name;
    } else {
      var ch := w[0];
      assert w == [ch] + w[1..];
      OverOne(ch, w[1..], ADDRESS);
      OverOne(ch, w[1..], "]%");
      Classes(ch);
      assert ch != ']' && ch != '%' by { assert ch !in "]%"; }
      assert h.name + w == h.name + [ch] + w[1..];
      hide IsAddressChar;
      if ch in ADDRESS { AddressGoes(h.(name := h.name + [ch]), w[1..]); }
    }
  }

  lemma {:induction false} ZoneGoes(h: HostText, w: string)
    requires h == NO_HOST.(open := true, name := h.name, percent := true, zone := h.zone) && Without(w, "]")
    ensures HostGoes(false, h, w) == if Over(w, ZONE) then Some(h.(zone := h.zone + w)) else None
    decreases |w|
  {
    hide ZONE;
    if w == "" {
      assert h.zone + w == h.zone;
    } else {
      var ch := w[0];
      assert w == [ch] + w[1..];
      OverOne(ch, w[1..], ZONE);
      OverOne(ch, w[1..], "]");
      Classes(ch);
      assert ch != ']' by { assert ch !in "]"; }
      assert h.zone + w == h.zone + [ch] + w[1..];
      hide IsZoneChar;
      if ch in ZONE { ZoneGoes(h.(zone := h.zone + [ch]), w[1..]); }
    }
  }

  lemma {:induction false} PortGoes(found: bool, h: HostText, w: string)
    requires h.colon
    ensures HostGoes(found, h, w) == if Over(w, DIGITS) then Some(h.(port := h.port + w)) else None
    decreases |w|
  {
    hide DIGITS;
    if w == "" {
      assert h.port + w == h.port;
    } else {
      var ch := w[0];
      assert w == [ch] + w[1..];
      OverOne(ch, w[1..], DIGITS);
      Classes(ch);
      assert h.port + w == h.port + [ch] + w[1..];
      if ch in DIGITS { PortGoes(found, h.(port := h.port + [ch]), w[1..]); }
    }
  }

  // Whole URLs

  /** "http://", an authority and a path. */
  function HttpUrl(authority: string, path: string): string {
    "http" + ("://" + (authority + path))
  }

  const HTTP := NO_URL.(schema := "http", seps := 3)

  lemma HttpGoes()
    ensures Goes(NO_URL, "http" + "://") == Some(HTTP)
  {
    HttpSchema();
    var l := NO_URL.(schema := "http");
    SeparatorsGo(l);
    hide Goes;
    GoesJoin(NO_URL, "http", "://");
  }

  lemma HttpSchema()
    ensures Goes(NO_URL, "http") == Some(NO_URL.(schema := "http"))
  {
    hide Goes;
    Letters4();
    SchemaGoes(NO_URL, "http");
    assert "" + "http" == "http";
  }

  /** The bytes between a schema and an authority. */
  lemma SeparatorsGo(l: UrlText)
    requires InSchema(l) && l.schema != ""
    ensures Goes(l, "://") == Some(l.(seps := 3))
  {
    var (l1, l2) := (l.(seps := 1), l.(seps := 2));
    GoesOne(l, ':');
    GoesOne(l1, '/');
    GoesOne(l2, '/');
    hide Goes;
    assert "://" == [':'] + (['/'] + ['/']);
    GoesJoin(l, [':'], ['/'] + ['/']);
    GoesJoin(l1, ['/'], ['/']);
  }

  lemma Letters4()
    ensures Over("http", SMALL + CAPITAL) && Without("http", ":/*")
  {
    LetterClasses('h');
    LetterClasses('t');
    LetterClasses('p');
    hide SMALL, CAPITAL;
  }

  lemma AfterHttp(authority: string, path: string)
    ensures UrlScan(false, HttpUrl(authority, path)) == match Goes(HTTP, authority) case None => None case Some(l) => Goes(l, path)
  {
    hide Goes;
    var rest := authority + path;
    HttpGoes();
    assert HttpUrl(authority, path) == "" + (("http" + "://") + rest);
    ScanGoes("", ("http" + "://") + rest);
    NothingScanned();
    GoesJoin(NO_URL, "http" + "://", rest);
    GoesJoin(HTTP, authority, path);
    hide UrlScan;
  }

  lemma NothingScanned()
    ensures UrlScan(false, "") == Some(NO_URL)
  {
  }

  /** An authority before a slash. */
  predicate WholeAuthority(l: UrlText) {
    InAuthority(l) && l.schema == "http" && l.authority != "" && l.authority[|l.authority| - 1] != '@'
  }

  lemma SlashGoes(l: UrlText)
    requires WholeAuthority(l)
    ensures Goes(l, "/") == Some(l.(path := "/"))
  {
    GoesOne(l, '/');
    hide Goes;
    assert "" + ['/'] == "/" && ['/'] == "/";
  }

  /** What the decomposer makes of an authority without an at sign. */
  lemma PlainAuthority(a: string)
    requires a != "" && Without(a, "/?#@")
    ensures
      Decomposed(false, HttpUrl(a, "/"))
   == if Over(a, AUTHORITY) && HostOf(a).Some? && PortNumber(HostOf(a).value) <= 65535
      then Some(Decomposition(HTTP.(authority := a, path := "/"), HostOf(a).value)) else None
  {
    AfterHttp(a, "/");
    AuthorityGoes(HTTP, a);
    assert "" + a == a;
    NoAt(a);
    if Over(a, AUTHORITY) { SlashGoes(HTTP.(authority := a)); }
    hide Goes, AUTHORITY, HostOf, PortNumber, UrlScan, HttpUrl;
  }

  lemma NoAt(a: string)
    requires a != "" && Without(a, "/?#@")
    ensures a[|a| - 1] != '@' && '@' !in a
  {
    forall i | 0 <= i < |a| ensures a[i] != '@' { assert a[i] !in "/?#@"; }
  }

  lemma Inner(a: string)
    requires a != "" && '@' !in a
    ensures HostScan(false, a) == HostGoes(false, NO_HOST, a)
    ensures
      HostOf(a)
   == match HostScan(false, a) case None => None case Some(h) => if HostMayEnd(HostStateOf(false, h)) then Some(h) else None
  {
    HostScanGoes(false, "", a);
    assert "" + a == a;
    hide HostGoes;
  }

  lemma OverLarger(w: string, small: string, large: string)
    requires forall ch | ch in small :: ch in large
    ensures Over(w, small) ==> Over(w, large)
  {
  }

  lemma AlphabetsIn()
    ensures forall ch | ch in HOST :: ch in AUTHORITY
    ensures forall ch | ch in ADDRESS :: ch in AUTHORITY
    ensures forall ch | ch in ZONE :: ch in AUTHORITY || ch == '%'
  {
    forall ch: char ensures (ch in HOST ==> ch in AUTHORITY) && (ch in ADDRESS ==> ch in AUTHORITY) && (ch in ZONE ==> ch in AUTHORITY || ch == '%') {
      Classes(ch);
      AuthorityBytes(ch);
    }
    hide HOST, ADDRESS, ZONE, AUTHORITY;
  }

  /** A host name is taken if and only if it consists of letters, digits, dots and hyphens. */
  lemma HostTaken(name: string)
    requires name != "" && Without(name, "/?#@:[")
    ensures
      Decomposed(false, HttpUrl(name, "/"))
   == if Over(name, HOST) then Some(Decomposition(HTTP.(authority := name, path := "/"), NO_HOST.(name := name))) else None
  {
    AlphabetsIn();
    OverLarger(name, HOST, AUTHORITY);
    Fewer(name);
    PlainAuthority(name);
    NoAt(name);
    Inner(name);
    NameGoes(false, NO_HOST, name);
    assert "" + name == name;
    NamePort(name);
    hide HOST, AUTHORITY, HostScan, HostGoes, HttpUrl, HostOf, Decomposed;
  }

  lemma Fewer(w: string)
    requires Without(w, "/?#@:[")
    ensures Without(w, "/?#@") && Without(w, ":[")
  {
    forall i | 0 <= i < |w| ensures w[i] !in "/?#@" && w[i] !in ":[" { assert w[i] !in "/?#@:["; }
  }

  lemma NamePort(name: string)
    requires name != ""
    ensures PortNumber(NO_HOST.(name := name)) == 0 && HostMayEnd(HostStateOf(false, NO_HOST.(name := name)))
  {
  }

  lemma OverJoin(v: string, w: string, alphabet: string)
    ensures Over(v + w, alphabet) <==> Over(v, alphabet) && Over(w, alphabet)
    ensures Without(v + w, alphabet) <==> Without(v, alphabet) && Without(w, alphabet)
  {
    var u := v + w;
    assert forall i | 0 <= i < |v| :: u[i] == v[i];
    assert forall i | 0 <= i < |w| :: u[|v| + i] == w[i];
    if Over(u, alphabet) { forall i | 0 <= i < |w| ensures w[i] in alphabet { assert u[|v| + i] in alphabet; } }
    if Without(u, alphabet) { forall i | 0 <= i < |w| ensures w[i] !in alphabet { assert u[|v| + i] !in alphabet; } }
  }

  lemma WithoutMore(w: string, few: string, many: string)
    requires Without(w, many) && forall ch | ch in few :: ch in many
    ensures Without(w, few)
  {
    forall i | 0 <= i < |w| ensures w[i] !in few { assert w[i] !in many; }
  }

  lemma Brackets()
    ensures Over("[", AUTHORITY) && Over("]", AUTHORITY) && Over(":", AUTHORITY) && Over("%", AUTHORITY)
    ensures Without("[", "/?#@") && Without("]", "/?#@") && Without(":", "/?#@") && Without("%", "/?#@")
  {
    AuthorityBytes('[');
    AuthorityBytes(']');
    AuthorityBytes(':');
    AuthorityBytes('%');
    hide AUTHORITY;
  }

  lemma OpenStep()
    ensures HostGoes(false, NO_HOST, "[") == Some(NO_HOST.(open := true))
  {
    HostGoesOne(false, NO_HOST, '[');
    hide HostGoes;
    assert ['['] == "[";
  }

  lemma PercentStep(a: string)
    requires a != ""
    ensures HostGoes(false, NO_HOST.(open := true, name := a), "%") == Some(NO_HOST.(open := true, name := a, percent := true))
  {
    HostGoesOne(false, NO_HOST.(open := true, name := a), '%');
    hide HostGoes;
    assert ['%'] == "%";
  }

  lemma CloseStep(h: HostText)
    requires h.open && h.name != "" && (h.percent <==> h.zone != "") && !h.closed && !h.colon && h.port == ""
    ensures HostGoes(false, h, "]") == Some(h.(closed := true))
  {
    HostGoesOne(false, h, ']');
    hide HostGoes;
    assert [']'] == "]";
  }

  lemma ColonStep(name: string)
    requires name != ""
    ensures HostGoes(false, NO_HOST.(name := name), ":") == Some(NO_HOST.(name := name, colon := true))
  {
    HostGoesOne(false, NO_HOST.(name := name), ':');
    hide HostGoes;
    assert [':'] == ":";
  }

  lemma AtStep(u: string)
    ensures HostGoes(true, NO_HOST.(userinfo := u), "@") == Some(NO_HOST.(userinfo := u, at := true))
  {
    HostGoesOne(true, NO_HOST.(userinfo := u), '@');
    hide HostGoes;
    assert ['@'] == "@";
  }

  /** What a name, an address, a zone, a port and user information grow from. */
  lemma HostFacts(u: string, a: string, z: string)
    ensures var h := NO_HOST; h.name == "" && h == NO_HOST.(userinfo := h.userinfo, at := h.at, name := h.name) && !h.at && h.userinfo == ""
    ensures NO_HOST == NO_HOST.(userinfo := NO_HOST.userinfo)
    ensures
      var k := NO_HOST.(userinfo := u, at := true);
      k == NO_HOST.(userinfo := k.userinfo, at := k.at, name := k.name) && k.at && k.name == "" && k.(name := a) == NO_HOST.(userinfo := u, at := true, name := a)
    ensures var o := NO_HOST.(open := true); o == NO_HOST.(open := true, name := o.name) && o.name == "" && o.(name := a) == NO_HOST.(open := true, name := a)
    ensures
      var k := NO_HOST.(open := true, name := a, percent := true);
      && k == NO_HOST.(open := true, name := k.name, percent := true, zone := k.zone) && k.zone == "" && k.name == a
      && k.(zone := z) == NO_HOST.(open := true, name := a, percent := true, zone := z)
      && k.(zone := z).(closed := true) == NO_HOST.(open := true, name := a, percent := true, zone := z, closed := true)
    ensures var c := NO_HOST.(name := a, colon := true); c.colon && c.port == "" && c.(port := z) == NO_HOST.(name := a, colon := true, port := z)
    ensures NO_HOST.(open := true, name := a).(closed := true) == NO_HOST.(open := true, name := a, closed := true)
  {
  }

  lemma MayClose(a: string, z: string)
    requires a != ""
    ensures
      var h := NO_HOST.(open := true, name := a);
      h.open && h.name != "" && !h.percent && h.zone == "" && !h.closed && !h.colon && h.port == ""
    ensures
      var h := NO_HOST.(open := true, name := a, percent := true, zone := z);
      h.open && h.name != "" && h.percent && h.zone == z && !h.closed && !h.colon && h.port == ""
  {
  }

  /** An address in brackets. */
  lemma AddressInner(a: string)
    requires a != "" && Without(a, "]%")
    ensures
      HostGoes(false, NO_HOST, "[" + (a + "]"))
   == if Over(a, ADDRESS) then Some(NO_HOST.(open := true, name := a, closed := true)) else None
  {
    hide *;
    var h := NO_HOST.(open := true);
    HostFacts("", a, "");
    MayClose(a, "");
    OpenStep();
    AddressGoes(h, a);
    CloseStep(h.(name := a));
    assert "" + a == a;
    HostGoesJoin(false, NO_HOST, "[", a + "]");
    HostGoesJoin(false, h, a, "]");
  }

  /** A bracketed address is taken if and only if it consists of hexadecimal digits, colons and dots. */
  lemma AddressTaken(a: string)
    requires a != "" && Without(a, "/?#@]%")
    ensures
      Decomposed(false, HttpUrl("[" + (a + "]"), "/"))
   == if Over(a, ADDRESS)
      then Some(Decomposition(HTTP.(authority := "[" + (a + "]"), path := "/"), NO_HOST.(open := true, name := a, closed := true)))
      else None
  {
    hide *;
    var all := "[" + (a + "]");
    WithoutMore(a, "/?#@", "/?#@]%") by { FewMarks(); }
    WithoutMore(a, "]%", "/?#@]%") by { FewMarks(); }
    Brackets();
    OverJoin(a, "]", "/?#@");
    OverJoin("[", a + "]", "/?#@");
    OverJoin(a, "]", AUTHORITY);
    OverJoin("[", a + "]", AUTHORITY);
    AlphabetsIn();
    OverLarger(a, ADDRESS, AUTHORITY);
    PlainAuthority(all);
    NoAt(all);
    Inner(all);
    AddressInner(a);
    AddressHost(a);
  }

  lemma AddressHost(a: string)
    ensures
      var h := NO_HOST.(open := true, name := a, closed := true);
      PortNumber(h) == 0 && HostMayEnd(HostStateOf(false, h))
  {
  }

  lemma FewMarks()
    ensures (forall ch | ch in "/?#@" :: ch in "/?#@]%") && (forall ch | ch in "]%" :: ch in "/?#@]%")
    ensures (forall ch | ch in "/?#@" :: ch in "/?#@]") && (forall ch | ch in "]" :: ch in "/?#@]")
  {
  }

  lemma ClosedHost(a: string, z: string)
    ensures
      var h := NO_HOST.(open := true, name := a, percent := z != "", zone := z, closed := true);
      PortNumber(h) == 0 && HostMayEnd(HostStateOf(false, h))
  {
  }

  lemma ZoneInner(a: string, z: string)
    requires a != "" && Over(a, ADDRESS) && Without(a, "]%") && z != "" && Without(z, "]")
    ensures
      HostGoes(false, NO_HOST, "[" + (a + ("%" + (z + "]"))))
   == if Over(z, ZONE) then Some(NO_HOST.(open := true, name := a, percent := true, zone := z, closed := true)) else None
  {
    hide *;
    var h := NO_HOST.(open := true);
    var k := NO_HOST.(open := true, name := a, percent := true);
    HostFacts("", a, z);
    MayClose(a, z);
    OpenStep();
    AddressGoes(h, a);
    PercentStep(a);
    ZoneGoes(k, z);
    CloseStep(k.(zone := z));
    assert "" + a == a && "" + z == z;
    HostGoesJoin(false, NO_HOST, "[", a + ("%" + (z + "]")));
    HostGoesJoin(false, h, a, "%" + (z + "]"));
    HostGoesJoin(false, h.(name := a), "%", z + "]");
    HostGoesJoin(false, k, z, "]");
  }

  /** A zone is taken if and only if it consists of letters, digits, and "%.-_~". */
  lemma ZoneTaken(a: string, z: string)
    requires a != "" && Over(a, ADDRESS) && Without(a, "/?#@]%") && z != "" && Without(z, "/?#@]")
    ensures
      var all := "[" + (a + ("%" + (z + "]")));
      Decomposed(false, HttpUrl(all, "/"))
        == if Over(z, ZONE)
      then Some(Decomposition(HTTP.(authority := all, path := "/"), NO_HOST.(open := true, name := a, percent := true, zone := z, closed := true)))
      else None
  {
    hide *;
    var all := "[" + (a + ("%" + (z + "]")));
    WithoutMore(a, "/?#@", "/?#@]%") by { FewMarks(); }
    WithoutMore(a, "]%", "/?#@]%") by { FewMarks(); }
    WithoutMore(z, "/?#@", "/?#@]") by { FewMarks(); }
    WithoutMore(z, "]", "/?#@]") by { FewMarks(); }
    Brackets();
    ZoneMarks(a, z, "/?#@");
    ZoneMarks(a, z, AUTHORITY);
    AlphabetsIn();
    OverLarger(a, ADDRESS, AUTHORITY);
    ZoneInAuthority(z);
    PlainAuthority(all);
    NoAt(all);
    Inner(all);
    ZoneInner(a, z);
    ClosedHost(a, z);
  }

  lemma ZoneMarks(a: string, z: string, alphabet: string)
    ensures
      var all := "[" + (a + ("%" + (z + "]")));
      && (Over(all, alphabet) <==> Over("[", alphabet) && Over(a, alphabet) && Over("%", alphabet) && Over(z, alphabet) && Over("]", alphabet))
      && (Without(all, alphabet)
          <==> Without("[", alphabet) && Without(a, alphabet) && Without("%", alphabet) && Without(z, alphabet) && Without("]", alphabet))
  {
    hide *;
    OverJoin(z, "]", alphabet);
    OverJoin("%", z + "]", alphabet);
    OverJoin(a, "%" + (z + "]"), alphabet);
    OverJoin("[", a + ("%" + (z + "]")), alphabet);
  }

  lemma ZoneInAuthority(z: string)
    ensures Over(z, ZONE) ==> Over(z, AUTHORITY)
  {
    AlphabetsIn();
    AuthorityBytes('%');
    hide ZONE, AUTHORITY;
  }

  /** A port is taken if and only if it consists of digits that denote at most 65535. */
  lemma PortTaken(name: string, p: string)
    requires name != "" && Over(name, HOST) && Without(name, "/?#@:[") && p != "" && Without(p, "/?#@")
    ensures
      var (all, h) := (name + (":" + p), NO_HOST.(name := name, colon := true, port := p));
      Decomposed(false, HttpUrl(all, "/"))
        == if Over(p, DIGITS) && PortNumber(h) <= 65535 then Some(Decomposition(HTTP.(authority := all, path := "/"), h)) else None
  {
    hide *;
    var all := name + (":" + p);
    Fewer(name);
    Brackets();
    OverJoin(":", p, "/?#@");
    OverJoin(name, ":" + p, "/?#@");
    OverJoin(":", p, AUTHORITY);
    OverJoin(name, ":" + p, AUTHORITY);
    AlphabetsIn();
    OverLarger(name, HOST, AUTHORITY);
    DigitsInAuthority(p);
    PlainAuthority(all);
    NoAt(all);
    Inner(all);
    PortInner(name, p);
  }

  lemma DigitsInAuthority(p: string)
    ensures Over(p, DIGITS) ==> Over(p, AUTHORITY)
  {
    forall ch: char ensures ch in DIGITS ==> ch in AUTHORITY {
      Classes(ch);
      AuthorityBytes(ch);
    }
    hide DIGITS, AUTHORITY;
    OverLarger(p, DIGITS, AUTHORITY);
  }

  lemma PortInner(name: string, p: string)
    requires name != "" && Over(name, HOST) && Without(name, ":[") && p != ""
    ensures
      var h := NO_HOST.(name := name, colon := true, port := p);
      && HostGoes(false, NO_HOST, name + (":" + p)) == (if Over(p, DIGITS) then Some(h) else None)
      && HostMayEnd(HostStateOf(false, h))
  {
    hide *;
    HostFacts("", name, p);
    NameGoes(false, NO_HOST, name);
    ColonStep(name);
    PortGoes(false, NO_HOST.(name := name, colon := true), p);
    assert "" + name == name && "" + p == p;
    HostGoesJoin(false, NO_HOST, name, ":" + p);
    HostGoesJoin(false, NO_HOST.(name := name), ":", p);
    PortEnds(name, p);
  }

  lemma PortEnds(name: string, p: string)
    requires p != ""
    ensures HostMayEnd(HostStateOf(false, NO_HOST.(name := name, colon := true, port := p)))
  {
  }

  // User information

  lemma AtGoes(l: UrlText)
    requires InAuthority(l) && (l.authority != "" ==> l.authority[|l.authority| - 1] != '@')
    ensures Goes(l, "@") == Some(l.(authority := l.authority + "@"))
  {
    GoesOne(l, '@');
    hide Goes;
    assert ['@'] == "@";
  }

  lemma UserinfoInner(u: string, name: string)
    requires Without(u, "@") && name != "" && Over(name, HOST) && Without(name, ":[")
    ensures
      HostGoes(true, NO_HOST, u + ("@" + name))
   == if Over(u, USERINFO) then Some(NO_HOST.(userinfo := u, at := true, name := name)) else None
  {
    hide *;
    var k := NO_HOST.(userinfo := u, at := true);
    HostFacts(u, name, "");
    UserinfoGoes(NO_HOST, u);
    AtStep(u);
    NameGoes(true, k, name);
    assert "" + name == name && "" + u == u;
    HostGoesJoin(true, NO_HOST, u, "@" + name);
    HostGoesJoin(true, NO_HOST.(userinfo := u), "@", name);
  }

  lemma UserinfoOuter(u: string, name: string)
    requires Without(u, "/?#@") && name != "" && Over(name, HOST) && Without(name, "/?#@:[")
    ensures
      var all := u + ("@" + name);
      UrlScan(false, HttpUrl(all, "/")) == if Over(u, AUTHORITY) then Some(HTTP.(authority := all, path := "/")) else None
  {
    hide *;
    var all := u + ("@" + name);
    AfterHttp(all, "/");
    GoesJoin(HTTP, u, "@" + name);
    HttpFacts();
    AuthorityGoes(HTTP, u);
    assert "" + u == u;
    if Over(u, AUTHORITY) {
      var l := HTTP.(authority := u);
      if u != "" { NoAt(u); }
      InAuthorityOf(u);
      InAuthorityOf(u + "@");
      InAuthorityOf(all);
      AtGoes(l);
      GoesJoin(l, "@", name);
      Fewer(name);
      AuthorityGoes(HTTP.(authority := u + "@"), name);
      AlphabetsIn();
      OverLarger(name, HOST, AUTHORITY);
      assert u + "@" + name == all;
      NoAt(name);
      WholeOf(u, name);
      SlashGoes(HTTP.(authority := all));
    }
  }

  lemma HttpFacts()
    ensures InAuthority(HTTP) && HTTP.authority == ""
  {
  }

  lemma InAuthorityOf(a: string)
    ensures InAuthority(HTTP.(authority := a))
  {
  }

  lemma WholeOf(u: string, name: string)
    requires name != "" && name[|name| - 1] != '@'
    ensures WholeAuthority(HTTP.(authority := u + ("@" + name)))
  {
  }

  /** User information is taken if and only if it consists of letters, digits, and "-_.!~*'()%;:&=+$,". */
  lemma UserinfoTaken(u: string, name: string)
    requires Without(u, "/?#@") && name != "" && Over(name, HOST) && Without(name, "/?#@:[")
    ensures
      var all := u + ("@" + name);
      Decomposed(false, HttpUrl(all, "/"))
        == if Over(u, USERINFO)
      then Some(Decomposition(HTTP.(authority := all, path := "/"), NO_HOST.(userinfo := u, at := true, name := name))) else None
  {
    hide HostGoes, HostScan, UrlScan, HOST, USERINFO, AUTHORITY, HttpUrl, HostStateOf, HostMayEnd, PortNumber, Without, Over;
    UserinfoOuter(u, name);
    UserinfoParts(u, name);
    UserinfoInAuthority(u);
    Fewer(name);
    UserinfoInner(u, name);
    HostScanGoes(true, "", u + ("@" + name));
    assert "" + (u + ("@" + name)) == u + ("@" + name);
  }

  lemma UserinfoParts(u: string, name: string)
    requires Without(u, "/?#@") && name != ""
    ensures '@' in u + ("@" + name) && HostScan(true, "") == Some(NO_HOST) && Without(u, "@")
    ensures var h := NO_HOST.(userinfo := u, at := true, name := name); HostMayEnd(HostStateOf(true, h)) && PortNumber(h) == 0
  {
    assert (u + ("@" + name))[|u|] == '@';
    forall i | 0 <= i < |u| ensures u[i] !in "@" { assert u[i] !in "/?#@"; }
  }

  lemma UserinfoInAuthority(u: string)
    ensures Over(u, USERINFO) ==> Over(u, AUTHORITY)
  {
  }

  // Paths, queries and fragments

  /** A path is taken if and only if it consists of the visible bytes but "?" and "#". */
  lemma PathTaken(p: string)
    requires Without(p, "?#")
    ensures Decomposed(false, "/" + p) == if Over(p, URL) then Some(Decomposition(NO_URL.(path := "/" + p), NO_HOST)) else None
  {
    SlashFirst();
    ScanGoes("/", p);
    PathGoes(NO_URL.(path := "/"), p);
    hide UrlScan, Goes, URL;
    NoHostOf();
  }

  lemma SlashFirst()
    ensures UrlScan(false, "/") == Some(NO_URL.(path := "/"))
  {
    NothingScanned();
    ScanSnoc(false, "", '/');
    hide UrlScan;
    assert "" + ['/'] == "/";
  }

  lemma NoHostOf()
    ensures HostOf("") == Some(NO_HOST) && PortNumber(NO_HOST) == 0
  {
  }

  /** A query is taken if and only if it consists of the visible bytes but "#". */
  lemma QueryTaken(q: string)
    requires Without(q, "#")
    ensures
      Decomposed(false, "/?" + q)
   == if Over(q, URL + "?") then Some(Decomposition(NO_URL.(path := "/", question := true, query := q), NO_HOST)) else None
  {
    hide *;
    QuestionNext();
    ScanGoes("/?", q);
    QueryGoes(NO_URL.(path := "/", question := true), q);
    PathFacts(q);
    NoHostOf();
    Bare(NO_URL.(path := "/", question := true, query := q), "/?" + q);
  }

  lemma QuestionNext()
    ensures UrlScan(false, "/?") == Some(NO_URL.(path := "/", question := true))
    ensures InQuery(NO_URL.(path := "/", question := true)) && NO_URL.(path := "/", question := true).query == ""
  {
    SlashFirst();
    ScanSnoc(false, "/", '?');
    hide UrlScan;
    assert "/" + ['?'] == "/?";
  }

  lemma PathFacts(q: string)
    ensures "" + q == q && NO_URL.(path := "/", question := true).(query := q) == NO_URL.(path := "/", question := true, query := q)
  {
  }

  /** A URL without schema and authority. */
  lemma Bare(l: UrlText, buf: string)
    requires l.schema == NO_URL.schema && l.authority == NO_URL.authority
    ensures Decomposed(false, buf) == (match UrlScan(false, buf) case None => None case Some(k) => Decomposed(false, buf))
    ensures UrlScan(false, buf) == Some(l) ==> Decomposed(false, buf) == Some(Decomposition(l, NO_HOST))
  {
    NoHostOf();
    hide UrlScan, HostOf, PortNumber;
  }

  /** A fragment is taken if and only if it consists of visible bytes. */
  lemma FragmentTaken(f: string)
    requires f != "" && f[0] != '#'
    ensures
      Decomposed(false, "/#" + f)
   == if Over(f, URL + "?#") then Some(Decomposition(NO_URL.(path := "/", hashes := 1, fragment := f), NO_HOST)) else None
  {
    hide *;
    NumberNext();
    ScanGoes("/#", f);
    FirstOfFragment(NO_URL.(path := "/", hashes := 1), f);
    Bare(NO_URL.(path := "/", hashes := 1, fragment := f), "/#" + f);
  }

  lemma NumberNext()
    ensures UrlScan(false, "/#") == Some(NO_URL.(path := "/", hashes := 1))
  {
    SlashFirst();
    ScanSnoc(false, "/", '#');
    hide UrlScan;
    assert "/" + ['#'] == "/#";
  }

  lemma FirstOfFragment(l: UrlText, f: string)
    requires l == NO_URL.(path := "/", hashes := 1) && f != "" && f[0] != '#'
    ensures Goes(l, f) == if Over(f, URL + "?#") then Some(l.(fragment := f)) else None
  {
    hide *;
    var ch := f[0];
    assert f == [ch] + f[1..];
    OverOne(ch, f[1..], URL + "?#");
    FragmentByte(l, ch);
    GoesJoin(l, [ch], f[1..]);
    if ch in URL + "?#" { FragmentGoes(l.(fragment := [ch]), f[1..]); }
  }

  lemma FragmentByte(l: UrlText, ch: char)
    requires l == NO_URL.(path := "/", hashes := 1) && ch != '#'
    ensures Goes(l, [ch]) == if ch in URL + "?#" then Some(l.(fragment := [ch])) else None
  {
    hide URL, IsUrlChar, Goes, ParseUrlChar;
    GoesOne(l, ch);
    FragmentBegins(ch);
    assert ch in URL + "?#" <==> ch in URL || ch == '?' || ch == '#';
    assert "" + [ch] == [ch];
  }

  lemma FragmentBegins(ch: char)
    requires ch != '#'
    ensures ParseUrlChar(ReqFragmentStart, ch) == if ch in URL || ch == '?' then Some(ReqFragment) else None
  {
    Classes(ch);
    UrlBytes(ch);
    hide URL, IsUrlChar;
  }

  /** A schema is taken if and only if it consists of letters. */
  lemma SchemaTaken(s: string)
    requires s != "" && Without(s, ":/*")
    ensures
      Decomposed(false, s + ("://" + ("h" + "/")))
   == if Over(s, SMALL + CAPITAL)
      then Some(Decomposition(NO_URL.(schema := s, seps := 3, authority := "h", path := "/"), NO_HOST.(name := "h"))) else None
  {
    hide *;
    var (rest, l) := ("h" + "/", NO_URL.(schema := s));
    ScanGoes("", s + ("://" + rest));
    assert "" + (s + ("://" + rest)) == s + ("://" + rest) && "" + s == s;
    NothingScanned();
    GoesJoin(NO_URL, s, "://" + rest);
    NoUrlFacts(s);
    SchemaGoes(NO_URL, s);
    if Over(s, SMALL + CAPITAL) {
      GoesJoin(l, "://", rest);
      SeparatorsGo(l);
      ShortHost(l.(seps := 3));
    }
    OfShort(s);
  }

  lemma NoUrlFacts(s: string)
    ensures InSchema(NO_URL) && NO_URL.schema == "" && InSchema(NO_URL.(schema := s))
    ensures InAuthority(NO_URL.(schema := s, seps := 3)) && NO_URL.(schema := s, seps := 3).authority == ""
    ensures NO_URL.(schema := s).schema == s
  {
  }

  lemma ShortHost(l: UrlText)
    requires InAuthority(l) && l.authority == ""
    ensures Goes(l, "h" + "/") == Some(l.(authority := "h", path := "/"))
  {
    GoesOne(l, 'h');
    GoesOne(l.(authority := "h"), '/');
    hide Goes;
    assert "" + ['h'] == "h" && "" + ['/'] == "/";
    GoesJoin(l, ['h'], ['/']);
  }

  lemma OfShort(s: string)
    requires s != ""
    ensures
      var l := NO_URL.(schema := s, seps := 3, authority := "h", path := "/");
      forall buf :: UrlScan(false, buf) == Some(l) ==> Decomposed(false, buf) == Some(Decomposition(l, NO_HOST.(name := "h")))
    ensures forall buf :: UrlScan(false, buf) == None ==> Decomposed(false, buf) == None
    ensures InAuthority(NO_URL.(schema := s, seps := 3))
  {
    assert HostScan(false, "") == Some(NO_HOST) && "" + ['h'] == "h";
    HostSnoc(false, "", 'h');
    NamePort("h");
    hide HostScan, UrlScan;
  }

  /** A URL with a name, a port and a path, as services on the network publish them, is found part by part. */
  lemma ServiceUrl(name: string, p: string, path: string)
    requires name != "" && Over(name, HOST) && p != "" && Over(p, DIGITS) && Over(path, URL)
    requires PortNumber(NO_HOST.(name := name, colon := true, port := p)) <= 65535
    ensures
      Decomposed(false, HttpUrl(name + (":" + p), "/" + path))
   == Some(Decomposition(HTTP.(authority := name + (":" + p), path := "/" + path), NO_HOST.(name := name, colon := true, port := p)))
  {
    hide Decomposed, Frame, HttpUrl, HostTextOf, WholeHost, WellFormed, Text, PortNumber, HOST, DIGITS, URL;
    var h := NO_HOST.(name := name, colon := true, port := p);
    var l := HTTP.(authority := name + (":" + p), path := "/" + path);
    ServiceHost(name, p, h);
    ServiceFrame(name + (":" + p), path, l);
    WholeParts(l, h);
    UrlExact(false, HttpUrl(name + (":" + p), "/" + path), Decomposition(l, h));
  }

  lemma ServiceHost(name: string, p: string, h: HostText)
    requires name != "" && Over(name, HOST) && p != "" && Over(p, DIGITS) && h == NO_HOST.(name := name, colon := true, port := p)
    ensures WholeHost(h) && HostTextOf(h) == name + (":" + p)
  {
    hide HOST, DIGITS, WholeHost, IsHostChar, IsNum;
    forall i | 0 <= i < |name| ensures IsHostChar(name[i]) { Classes(name[i]); }
    forall i | 0 <= i < |p| ensures IsNum(p[i]) { Classes(p[i]); }
    WholeHostExact(h);
    assert "" + "" + "" + (name + "") + ("" + (":" + p)) == name + (":" + p);
  }

  lemma ServiceFrame(authority: string, path: string, l: UrlText)
    requires Over(path, URL) && l == HTTP.(authority := authority, path := "/" + path)
    ensures Frame(false, l) && Text(l) == HttpUrl(authority, "/" + path)
  {
    hide URL, IsUrlChar;
    assert IsUrlChar('/') by { Slash(); }
    forall i | 0 <= i < |l.path| ensures IsUrlChar(l.path[i]) {
      if i > 0 { Classes(path[i - 1]); }
    }
    assert "://"[..3] == "://";
    assert "http" + "://" + authority + ("/" + path) + "" + "" + "" == HttpUrl(authority, "/" + path);
  }

  lemma Slash()
    ensures IsUrlChar('/')
  {
  }

  lemma WholeParts(l: UrlText, h: HostText)
    requires Frame(false, l) && l.authority == HostTextOf(h) && WholeHost(h)
    ensures WellFormed(false, Decomposition(l, h))
  {
    WholeHostExact(h);
    hide Frame, HostTextOf, WholeHost;
  }

  lemma InAlphabets(w: string)
    ensures (forall i | 0 <= i < |w| :: IsHostChar(w[i])) ==> Over(w, HOST)
    ensures (forall i | 0 <= i < |w| :: IsNum(w[i])) ==> Over(w, DIGITS)
    ensures (forall i | 0 <= i < |w| :: IsUrlChar(w[i])) ==> Over(w, URL)
  {
    hide HOST, DIGITS, URL, IsHostChar, IsNum, IsUrlChar;
    forall i | 0 <= i < |w| { Classes(w[i]); }
  }

  lemma TvParts()
    ensures Over("my-tv", HOST) && Over("8001", DIGITS) && Over("api/", URL)
  {
    hide HOST, DIGITS, URL;
    InAlphabets("my-tv");
    InAlphabets("8001");
    InAlphabets("api/");
  }

  lemma TvPort(h: HostText)
    requires h.port == "8001"
    ensures PortNumber(h) == 8001
  {
    DecStep("", '8', "8");
    DecStep("8", '0', "80");
    DecStep("80", '0', "800");
    DecStep("800", '1', "8001");
  }

  lemma DecStep(s: string, ch: char, t: string)
    requires AllDigits(s) && IsNum(ch) && t == s + [ch]
    ensures AllDigits(t) && DecValue(t) == DecValue(s) * 10 + Digit(ch)
  {
    DecSnoc(s, ch);
  }

  /** The address of a television set. */
  lemma TvUrl()
    ensures
      var found := Decomposed(false, "http://my-tv:8001/api/");
      && found.Some? && FullName(found.value.host) == "my-tv" && PortNumber(found.value.host) == 8001 && found.value.url.path == "/api/"
      && found.value.url.schema == "http"
  {
    hide *;
    hide Decomposed, HOST, DIGITS, URL, Over, PortNumber, DecValue, HttpUrl;
    var h := NO_HOST.(name := "my-tv", colon := true, port := "8001");
    TvParts();
    TvPort(h);
    TvText();
    ServiceUrl("my-tv", "8001", "api/");
    TvFacts(h);
  }

  lemma TvFacts(h: HostText)
    requires h == NO_HOST.(name := "my-tv", colon := true, port := "8001")
    ensures FullName(h) == "my-tv" && HTTP.schema == "http"
  {
  }

  lemma TvText()
    ensures HttpUrl("my-tv" + (":" + "8001"), "/" + "api/") == "http://my-tv:8001/api/" && "/" + "api/" == "/api/"
  {
    assert "my-tv" + (":" + "8001") == "my-tv:8001";
    assert "my-tv:8001" + "/api/" == "my-tv:8001/api/";
    assert "://" + "my-tv:8001/api/" == "://my-tv:8001/api/";
    assert "http" + "://my-tv:8001/api/" == "http://my-tv:8001/api/";
  }
}
