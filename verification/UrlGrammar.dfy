/** The two automata of the URL decomposer against a grammar: an outer one that finds schema, authority, path, query
    and fragment, and an inner one that takes the authority apart. */
module UrlGrammar {
  import opened Characters
  import opened Http
  import opened UrlChar

  // The outer automaton

  /** A beginning of a URL; `seps` counts the bytes of "://" that are there. */
  datatype UrlText = UrlText(schema: string, seps: nat, authority: string, path: string, question: bool, query: string,
                             hashes: nat, fragment: string)

  const NO_URL := UrlText("", 0, "", "", false, "", 0, "")

  function Hashes(n: nat): (s: string)
    ensures |s| == n
  {
    seq(n, _ => '#')
  }

  function Front(l: UrlText): string {
    l.schema + (if l.seps <= 3 then "://"[..l.seps] else "://") + l.authority
  }

  function Text(l: UrlText): string {
    Front(l) + l.path + (if l.question then "?" + l.query else "") + Hashes(l.hashes) + l.fragment
  }

  /** The state of the outer automaton after a beginning of a URL. */
  function StateOf(connect: bool, l: UrlText): UrlState {
    if l.fragment != "" then ReqFragment
    else if l.hashes > 0 then ReqFragmentStart
    else if l.query != "" then ReqQueryString
    else if l.question then ReqQueryStringStart
    else if l.path != "" then ReqPath
    else if l.authority != "" then if l.authority[|l.authority| - 1] == '@' then ReqServerWithAt else ReqServer
    else if connect || l.seps >= 3 then ReqServerStart
    else if l.seps == 2 then ReqSchemaSlashSlash
    else if l.seps == 1 then ReqSchemaSlash
    else if l.schema != "" then ReqSchema
    else ReqSpacesBeforeUrl
  }

  /** The beginning of a URL with one more byte, after which the automaton is in state s. */
  function Grow(l: UrlText, s: UrlState, ch: char): UrlText {
    match s
    case ReqSpacesBeforeUrl => l
    case ReqSchema => l.(schema := l.schema + [ch])
    case ReqSchemaSlash => l.(seps := l.seps + 1)
    case ReqSchemaSlashSlash => l.(seps := l.seps + 1)
    case ReqServerStart => l.(seps := l.seps + 1)
    case ReqServer => l.(authority := l.authority + [ch])
    case ReqServerWithAt => l.(authority := l.authority + [ch])
    case ReqPath => l.(path := l.path + [ch])
    case ReqQueryStringStart => l.(question := true)
    case ReqQueryString => l.(query := l.query + [ch])
    case ReqFragmentStart => l.(hashes := l.hashes + 1)
    case ReqFragment => l.(fragment := l.fragment + [ch])
  }

  predicate AllAlpha(s: string) {
    forall i | 0 <= i < |s| :: IsAlpha(s[i])
  }

  /** Bytes of a path, or of a query or fragment where `more` allows a question mark or a number sign. */
  predicate UrlChars(s: string, more: set<char>) {
    forall i | 0 <= i < |s| :: IsUrlChar(s[i]) || s[i] in more
  }

  predicate AuthorityChar(ch: char) {
    IsUserinfoChar(ch) || ch == '[' || ch == ']' || ch == '@'
  }

  /** What the outer automaton asks of an authority. */
  predicate GoodAuthority(a: string) {
    && (forall i | 0 <= i < |a| :: AuthorityChar(a[i]))
    && (forall i | 0 <= i < |a| - 1 :: a[i] != '@' || a[i + 1] != '@')
  }

  /** An authority may follow: after "://", or at once for CONNECT. */
  predicate Located(connect: bool, l: UrlText) {
    connect || l.seps == 3
  }

  /** The grammar of URLs around the authority. */
  predicate Frame(connect: bool, l: UrlText) {
    && AllAlpha(l.schema) && l.seps <= 3 && (l.schema == "" ==> l.seps == 0) && (connect ==> l.schema == "")
    && (l.authority != "" ==> Located(connect, l))
    && UrlChars(l.path, {})
    && (l.path != "" ==>
          if Located(connect, l) then l.path[0] == '/' else l.schema == "" && l.path[0] in {'/', '*'})
    && (l.question ==> l.path != "" || Located(connect, l))
    && (l.query != "" ==> l.question) && UrlChars(l.query, {'?'})
    && (l.hashes > 0 ==> l.path != "" || l.question)
    && (l.fragment != "" ==> l.hashes > 0 && l.fragment[0] != '#') && UrlChars(l.fragment, {'?', '#'})
  }

  predicate Shape(connect: bool, l: UrlText) {
    Frame(connect, l) && GoodAuthority(l.authority)
  }

  lemma UrlCharsSnoc(s: string, ch: char, more: set<char>)
    ensures UrlChars(s + [ch], more) <==> UrlChars(s, more) && (IsUrlChar(ch) || ch in more)
  {
    hide IsUrlChar;
    assert forall i | 0 <= i < |s| :: (s + [ch])[i] == s[i];
    assert (s + [ch])[|s|] == ch;
  }

  lemma AlphaSnoc(s: string, ch: char)
    ensures AllAlpha(s + [ch]) <==> AllAlpha(s) && IsAlpha(ch)
  {
    hide IsAlpha;
    assert forall i | 0 <= i < |s| :: (s + [ch])[i] == s[i];
    assert (s + [ch])[|s|] == ch;
  }

  lemma AuthoritySnoc(a: string, ch: char)
    ensures GoodAuthority(a + [ch]) <==> GoodAuthority(a) && AuthorityChar(ch) && !(ch == '@' && a != "" && a[|a| - 1] == '@')
  {
    hide AuthorityChar;
    var b := a + [ch];
    assert forall i | 0 <= i < |a| :: b[i] == a[i];
    assert b[|a|] == ch;
    if GoodAuthority(b) && a != "" {
      assert b[|a| - 1] != '@' || b[|a| - 1 + 1] != '@';
    }
  }

  /** What the automaton asks of a byte. */
  lemma CharFacts(s: UrlState, ch: char)
    ensures
      var t := ParseUrlChar(s, ch);
      t.Some? ==>
        match t.value
        case ReqSpacesBeforeUrl => false
        case ReqSchema => IsAlpha(ch) && (s.ReqSpacesBeforeUrl? || s.ReqSchema?)
        case ReqSchemaSlash => ch == ':' && s.ReqSchema?
        case ReqSchemaSlashSlash => ch == '/' && s.ReqSchemaSlash?
        case ReqServerStart => ch == '/' && s.ReqSchemaSlashSlash?
        case ReqServer => AuthorityChar(ch) && ch != '@' && (s.ReqServerStart? || s.ReqServer? || s.ReqServerWithAt?)
        case ReqServerWithAt => AuthorityChar(ch) && ch == '@' && (s.ReqServerStart? || s.ReqServer?)
        case ReqPath =>
          IsUrlChar(ch) && if s.ReqPath? then true else if s.ReqSpacesBeforeUrl? then ch == '/' || ch == '*'
            else ch == '/' && (s.ReqServerStart? || s.ReqServer? || s.ReqServerWithAt?)
        case ReqQueryStringStart => ch == '?' && (s.ReqServerStart? || s.ReqServer? || s.ReqServerWithAt? || s.ReqPath?)
        case ReqQueryString => (IsUrlChar(ch) || ch == '?') && (s.ReqQueryStringStart? || s.ReqQueryString?)
        case ReqFragmentStart => ch == '#' && (s.ReqPath? || s.ReqQueryStringStart? || s.ReqQueryString? || s.ReqFragmentStart?)
        case ReqFragment =>
          (IsUrlChar(ch) || ch == '?' || ch == '#') && (s.ReqFragment? || (s.ReqFragmentStart? && ch != '#'))
  {
  }

  predicate TailState(s: UrlState) {
    s.ReqQueryStringStart? || s.ReqQueryString? || s.ReqFragmentStart? || s.ReqFragment?
  }

  lemma TailForward(connect: bool, l: UrlText, ch: char)
    requires Shape(connect, l) && ParseUrlChar(StateOf(connect, l), ch).Some?
    requires TailState(ParseUrlChar(StateOf(connect, l), ch).value)
    ensures
      var s := ParseUrlChar(StateOf(connect, l), ch).value;
      Shape(connect, Grow(l, s, ch)) && StateOf(connect, Grow(l, s, ch)) == s
  {
    hide ParseUrlChar, AllAlpha, UrlChars, GoodAuthority, IsUrlChar, IsAlpha, AuthorityChar;
    var s := ParseUrlChar(StateOf(connect, l), ch).value;
    var m := Grow(l, s, ch);
    CharFacts(StateOf(connect, l), ch);
    UrlCharsSnoc(l.query, ch, {'?'});
    UrlCharsSnoc(l.fragment, ch, {'?', '#'});
    assert m.fragment != "" ==> m.fragment[0] == if l.fragment != "" then l.fragment[0] else ch;
  }

  lemma FrontForward(connect: bool, l: UrlText, ch: char)
    requires Shape(connect, l) && ParseUrlChar(StateOf(connect, l), ch).Some?
    requires !TailState(ParseUrlChar(StateOf(connect, l), ch).value)
    ensures
      var s := ParseUrlChar(StateOf(connect, l), ch).value;
      Shape(connect, Grow(l, s, ch)) && StateOf(connect, Grow(l, s, ch)) == s
  {
    hide ParseUrlChar, AllAlpha, UrlChars, GoodAuthority, IsUrlChar, IsAlpha, AuthorityChar;
    var s := ParseUrlChar(StateOf(connect, l), ch).value;
    var m := Grow(l, s, ch);
    CharFacts(StateOf(connect, l), ch);
    if s.ReqPath? {
      UrlCharsSnoc(l.path, ch, {});
      assert m.path[0] == if l.path != "" then l.path[0] else ch;
    } else if s.ReqServer? || s.ReqServerWithAt? {
      AuthoritySnoc(l.authority, ch);
      assert m.authority[|m.authority| - 1] == ch;
    } else {
      AlphaSnoc(l.schema, ch);
    }
  }

  /** One more byte of a URL, forwards. */
  lemma StepForward(connect: bool, l: UrlText, ch: char)
    requires Shape(connect, l) && ParseUrlChar(StateOf(connect, l), ch).Some?
    ensures
      var s := ParseUrlChar(StateOf(connect, l), ch).value;
      var m := Grow(l, s, ch);
      Shape(connect, m) && StateOf(connect, m) == s
  {
    hide Shape, StateOf, ParseUrlChar, Grow;
    if TailState(ParseUrlChar(StateOf(connect, l), ch).value) {
      TailForward(connect, l, ch);
    } else {
      FrontForward(connect, l, ch);
    }
  }

  function Tail(l: UrlText): string {
    (if l.question then "?" + l.query else "") + Hashes(l.hashes) + l.fragment
  }

  lemma TextParts(l: UrlText)
    ensures Text(l) == Front(l) + l.path + Tail(l)
  {
    hide Front, Hashes;
  }

  lemma PartsGrow(l: UrlText, g: UrlText, ch: char)
    requires
      || (Front(g) == Front(l) + [ch] && l.path == g.path == "" && Tail(l) == Tail(g) == "")
      || (Front(g) == Front(l) && g.path == l.path + [ch] && Tail(l) == Tail(g) == "")
      || (Front(g) == Front(l) && g.path == l.path && Tail(g) == Tail(l) + [ch])
    ensures Text(g) == Text(l) + [ch]
  {
    TextParts(l);
    TextParts(g);
    hide Text, Front, Tail;
  }

  /** Bytes are only added at the end. */
  lemma TextGrows(connect: bool, l: UrlText, ch: char)
    requires Shape(connect, l) && ParseUrlChar(StateOf(connect, l), ch).Some?
    ensures Text(Grow(l, ParseUrlChar(StateOf(connect, l), ch).value, ch)) == Text(l) + [ch]
  {
    hide ParseUrlChar, AllAlpha, UrlChars, GoodAuthority, IsUrlChar, IsAlpha, AuthorityChar, Hashes, Text;
    var s := ParseUrlChar(StateOf(connect, l), ch).value;
    var g := Grow(l, s, ch);
    CharFacts(StateOf(connect, l), ch);
    HashesSnoc(l.hashes);
    if s.ReqSchema? || s.ReqSchemaSlash? || s.ReqSchemaSlashSlash? || s.ReqServerStart? || s.ReqServer? || s.ReqServerWithAt? {
      SepsSnoc(l.seps);
      assert Front(g) == Front(l) + [ch];
    } else if !s.ReqPath? {
      assert Tail(g) == Tail(l) + [ch];
    }
    PartsGrow(l, g, ch);
  }

  lemma HashesSnoc(n: nat)
    ensures Hashes(n + 1) == Hashes(n) + ['#'] && Hashes(0) == ""
  {
  }

  lemma SepsSnoc(n: nat)
    ensures n == 0 ==> "://"[..n + 1] == "://"[..n] + ":"
    ensures n == 1 || n == 2 ==> "://"[..n + 1] == "://"[..n] + "/"
    ensures "://"[..0] == ""
  {
  }

  /** The bytes read so far, as the outer automaton sees them. */
  function UrlScan(connect: bool, t: string): Option<UrlText>
    decreases |t|
  {
    if t == "" then Some(NO_URL)
    else
      var k := |t| - 1;
      match UrlScan(connect, t[..k])
      case None => None
      case Some(l) =>
        match ParseUrlChar(StateOf(connect, l), t[k])
        case None => None
        case Some(s) => Some(Grow(l, s, t[k]))
  }

  /** What the automaton reads is in the grammar, and nothing is lost. */
  lemma {:induction false} UrlScanSound(connect: bool, t: string)
    requires UrlScan(connect, t).Some?
    ensures Shape(connect, UrlScan(connect, t).value) && Text(UrlScan(connect, t).value) == t
    decreases |t|
  {
    hide Shape, StateOf, Text, Grow;
    if t == "" {
      NothingRead(connect);
    } else {
      var k := |t| - 1;
      UrlScanSound(connect, t[..k]);
      var l := UrlScan(connect, t[..k]).value;
      StepForward(connect, l, t[k]);
      TextGrows(connect, l, t[k]);
      assert t == t[..k] + [t[k]];
    }
  }

  lemma NothingRead(connect: bool)
    ensures Shape(connect, NO_URL) && Text(NO_URL) == ""
  {
  }

  /** The URL without its last byte, and that byte. */
  function Shrink(l: UrlText): (UrlText, char)
    requires l != NO_URL
  {
    if l.fragment != "" then (l.(fragment := l.fragment[..|l.fragment| - 1]), l.fragment[|l.fragment| - 1])
    else if l.hashes > 0 then (l.(hashes := l.hashes - 1), '#')
    else if l.query != "" then (l.(query := l.query[..|l.query| - 1]), l.query[|l.query| - 1])
    else if l.question then (l.(question := false), '?')
    else if l.path != "" then (l.(path := l.path[..|l.path| - 1]), l.path[|l.path| - 1])
    else if l.authority != "" then (l.(authority := l.authority[..|l.authority| - 1]), l.authority[|l.authority| - 1])
    else if l.seps > 0 then (l.(seps := l.seps - 1), if l.seps == 1 then ':' else '/')
    else if l.schema != "" then (l.(schema := l.schema[..|l.schema| - 1]), l.schema[|l.schema| - 1])
    else (l, '#')
  }

  /** Adding ch to m gives l, and the automaton takes it. */
  predicate Undone(connect: bool, l: UrlText, m: UrlText, ch: char) {
    var t := ParseUrlChar(StateOf(connect, m), ch);
    Shape(connect, m) && t == Some(StateOf(connect, l)) && Grow(m, t.value, ch) == l
  }

  lemma FragmentBack(connect: bool, l: UrlText)
    requires Shape(connect, l) && (l.fragment != "" || l.hashes > 0)
    ensures Undone(connect, l, Shrink(l).0, Shrink(l).1)
  {
    hide ParseUrlChar, AllAlpha, UrlChars, GoodAuthority, IsUrlChar, IsAlpha, AuthorityChar;
    var (m, ch) := Shrink(l);
    UrlCharsSnoc(m.fragment, ch, {'?', '#'});
    if l.fragment != "" { assert m.fragment + [ch] == l.fragment; }
    CharAccepted(StateOf(connect, m), ch);
  }

  lemma QueryBack(connect: bool, l: UrlText)
    requires Shape(connect, l) && l.fragment == "" && l.hashes == 0 && l.question && l.query != ""
    ensures Undone(connect, l, Shrink(l).0, Shrink(l).1)
  {
    hide ParseUrlChar, AllAlpha, UrlChars, GoodAuthority, IsUrlChar, IsAlpha, AuthorityChar;
    var (m, ch) := Shrink(l);
    UrlCharsSnoc(m.query, ch, {'?'});
    assert m.query + [ch] == l.query;
    CharAccepted(StateOf(connect, m), ch);
  }

  lemma QuestionBack(connect: bool, l: UrlText)
    requires Shape(connect, l) && l.fragment == "" && l.hashes == 0 && l.question && l.query == ""
    ensures Undone(connect, l, Shrink(l).0, Shrink(l).1)
  {
    hide ParseUrlChar, AllAlpha, UrlChars, GoodAuthority, IsUrlChar, IsAlpha, AuthorityChar;
    var (m, ch) := Shrink(l);
    CharAccepted(StateOf(connect, m), ch);
  }

  lemma PathBack(connect: bool, l: UrlText)
    requires Shape(connect, l) && l == NO_URL.(schema := l.schema, seps := l.seps, authority := l.authority, path := l.path) && l.path != ""
    ensures Undone(connect, l, Shrink(l).0, Shrink(l).1)
  {
    hide ParseUrlChar, AllAlpha, UrlChars, GoodAuthority, IsUrlChar, IsAlpha, AuthorityChar;
    var (m, ch) := Shrink(l);
    UrlCharsSnoc(m.path, ch, {});
    assert m.path + [ch] == l.path;
    CharAccepted(StateOf(connect, m), ch);
  }

  lemma FrontBack(connect: bool, l: UrlText)
    requires Shape(connect, l) && l == NO_URL.(schema := l.schema, seps := l.seps, authority := l.authority) && l != NO_URL
    ensures Undone(connect, l, Shrink(l).0, Shrink(l).1)
  {
    hide ParseUrlChar, AllAlpha, UrlChars, GoodAuthority, IsUrlChar, IsAlpha, AuthorityChar;
    var (m, ch) := Shrink(l);
    AlphaSnoc(m.schema, ch);
    AuthoritySnoc(m.authority, ch);
    if l.authority != "" {
      assert m.authority + [ch] == l.authority;
    } else if l.seps == 0 {
      assert m.schema + [ch] == l.schema;
    }
    CharAccepted(StateOf(connect, m), ch);
  }

  /** One more byte of a URL, backwards. */
  lemma StepBack(connect: bool, l: UrlText)
    requires Shape(connect, l) && l != NO_URL
    ensures Undone(connect, l, Shrink(l).0, Shrink(l).1)
  {
    hide Undone, Shrink, GoodAuthority, UrlChars, AllAlpha;
    if l.fragment != "" || l.hashes > 0 {
      FragmentBack(connect, l);
    } else if l.question && l.query != "" {
      QueryBack(connect, l);
    } else if l.question {
      QuestionBack(connect, l);
    } else if l.path != "" {
      PathBack(connect, l);
    } else {
      FrontBack(connect, l);
    }
  }

  /** The bytes the automaton takes. */
  lemma CharAccepted(s: UrlState, ch: char)
    ensures
      var t := ParseUrlChar(s, ch);
      && (IsAlpha(ch) && (s.ReqSpacesBeforeUrl? || s.ReqSchema?) ==> t == Some(ReqSchema))
      && (ch == ':' && s.ReqSchema? ==> t == Some(ReqSchemaSlash))
      && (ch == '/' && s.ReqSchemaSlash? ==> t == Some(ReqSchemaSlashSlash))
      && (ch == '/' && s.ReqSchemaSlashSlash? ==> t == Some(ReqServerStart))
      && (AuthorityChar(ch) && (s.ReqServerStart? || s.ReqServer? || (s.ReqServerWithAt? && ch != '@')) ==>
            t == Some(if ch == '@' then ReqServerWithAt else ReqServer))
      && ((ch == '/' || ch == '*') && s.ReqSpacesBeforeUrl? ==> t == Some(ReqPath))
      && (ch == '/' && (s.ReqServerStart? || s.ReqServer? || s.ReqServerWithAt?) ==> t == Some(ReqPath))
      && (IsUrlChar(ch) && s.ReqPath? ==> t == Some(ReqPath))
      && (ch == '?' && (s.ReqServerStart? || s.ReqServer? || s.ReqServerWithAt? || s.ReqPath?) ==> t == Some(ReqQueryStringStart))
      && ((IsUrlChar(ch) || ch == '?') && (s.ReqQueryStringStart? || s.ReqQueryString?) ==> t == Some(ReqQueryString))
      && (ch == '#' && (s.ReqPath? || s.ReqQueryStringStart? || s.ReqQueryString? || s.ReqFragmentStart?) ==> t == Some(ReqFragmentStart))
      && ((IsUrlChar(ch) || ch == '?' || ch == '#') && (s.ReqFragment? || (s.ReqFragmentStart? && ch != '#')) ==> t == Some(ReqFragment))
  {
  }

  lemma NoText(l: UrlText)
    requires l != NO_URL && l.seps <= 3 && (l.query != "" ==> l.question)
    ensures Text(l) != ""
  {
    hide Hashes;
    if l.schema == "" && l.seps > 0 {
      assert "://"[..l.seps][0] == ':';
    }
  }

  /** Everything in the grammar is read as it was written. */
  lemma {:induction false} UrlScanComplete(connect: bool, l: UrlText)
    requires Shape(connect, l)
    ensures UrlScan(connect, Text(l)) == Some(l)
    decreases |Text(l)|
  {
    hide StateOf, Text, Grow, Shrink, GoodAuthority;
    if l == NO_URL {
      NothingRead(connect);
    } else {
      NoText(l);
      StepBack(connect, l);
      var (m, ch) := Shrink(l);
      hide Shape;
      TextGrows(connect, m, ch);
      UrlScanComplete(connect, m);
      assert Text(l)[..|Text(l)| - 1] == Text(m);
    }
  }
}
