/** The Connection header: which elements of a list the parser looks at, and the flags they set. */
module Connections {
  import opened Characters
  import opened Http
  import opened Machine
  import opened Names
  import opened Reading
  import opened Values
  import opened Lists

  /** The elements of a list: its pieces between commas. */
  function Elements(v: string): (r: seq<string>)
    ensures r != []
  {
    if v == "" then [""]
    else
      var es := Elements(v[..|v| - 1]);
      var ch := v[|v| - 1];
      if ch == ',' then es + [""] else es[..|es| - 1] + [es[|es| - 1] + [ch]]
  }

  function Joined(es: seq<string>): string
    requires es != []
  {
    if |es| == 1 then es[0] else Joined(es[..|es| - 1]) + "," + es[|es| - 1]
  }

  /** Elements cuts a value at its commas. */
  lemma {:induction false} ElementsJoin(v: string)
    ensures Joined(Elements(v)) == v
    ensures forall e | e in Elements(v) :: ',' !in e
    decreases |v|
  {
    hide Elements, Joined;
    if v == "" {
      NoElements();
    } else {
      var (u, ch) := (v[..|v| - 1], v[|v| - 1]);
      assert v == u + [ch];
      ElementsJoin(u);
      ElementsSnoc(u, ch);
      var es := Elements(u);
      if ch == ',' {
        JoinedMore(es, "");
        assert u + "," + "" == v;
      } else {
        JoinedLonger(es, ch);
        assert es[|es| - 1] in es;
      }
    }
  }

  lemma JoinedMore(es: seq<string>, e: string)
    requires es != []
    ensures Joined(es + [e]) == Joined(es) + "," + e
  {
    assert (es + [e])[..|es|] == es;
  }

  lemma JoinedLonger(es: seq<string>, ch: char)
    requires es != []
    ensures Joined(es[..|es| - 1] + [es[|es| - 1] + [ch]]) == Joined(es) + [ch]
  {
    var n := |es| - 1;
    var fs := es[..n] + [es[n] + [ch]];
    assert fs[..n] == es[..n];
    if n > 0 {
      assert Joined(es[..n]) + "," + (es[n] + [ch]) == Joined(es[..n]) + "," + es[n] + [ch];
    }
  }

  lemma ElementsSnoc(u: string, ch: char)
    ensures
      var es := Elements(u);
      Elements(u + [ch]) == if ch == ',' then es + [""] else es[..|es| - 1] + [es[|es| - 1] + [ch]]
  {
    assert (u + [ch])[..|u|] == u;
  }

  /** The element being read, and those before it. */
  function Current(u: string): string {
    Elements(u)[|Elements(u)| - 1]
  }

  function Earlier(u: string): seq<string> {
    Elements(u)[..|Elements(u)| - 1]
  }

  lemma CurrentSnoc(u: string, ch: char)
    ensures Current(u + [ch]) == if ch == ',' then "" else Current(u) + [ch]
    ensures Earlier(u + [ch]) == if ch == ',' then Earlier(u) + [Current(u)] else Earlier(u)
  {
    ElementsSnoc(u, ch);
    var es := Elements(u);
    assert (es + [""])[..|es|] == es == Earlier(u) + [Current(u)];
  }

  /** The parser skips a space before an element. It compares LOWER of the byte, so NUL counts as a space too
      (it can only get here when any byte is let through). */
  predicate Blank(ch: char) {
    ch == SP || ch == '\0'
  }

  function Trim(e: string): string {
    if e != "" && Blank(e[0]) then Trim(e[1..]) else e
  }

  lemma {:induction false} TrimSnoc(e: string, ch: char)
    ensures Trim(e + [ch]) == if Trim(e) == "" && Blank(ch) then "" else Trim(e) + [ch]
  {
    if e == "" {
      assert e + [ch] == [ch];
    } else {
      assert (e + [ch])[0] == e[0] && (e + [ch])[1..] == e[1..] + [ch];
      if Blank(e[0]) { TrimSnoc(e[1..], ch); }
    }
  }

  const TOKENS: set<string> := {KEEP_ALIVE, CLOSE, UPGRADE}

  /** What the parser should know of an element of which t has been read after its leading spaces. */
  function ElementClass(t: string): HeaderState {
    if t == "" then MatchingConnectionTokenStart
    else if IsWord(t, KEEP_ALIVE) then ConnectionKeepAlive
    else if IsWord(t, CLOSE) then ConnectionClose
    else if IsWord(t, UPGRADE) then ConnectionUpgrade
    else if IsPrefix(LowerCase(t), KEEP_ALIVE) then MatchingConnectionKeepAlive
    else if IsPrefix(LowerCase(t), CLOSE) then MatchingConnectionClose
    else if IsPrefix(LowerCase(t), UPGRADE) then MatchingConnectionUpgrade
    else if IsToken(Lower(t[0])) then MatchingConnectionToken
    else General
  }

  /** A keyword the parser believes to be reading is the element being read. */
  predicate Believed(h: HeaderState, i: nat, t: string) {
    match h
    case MatchingConnectionTokenStart => t == "" && i == 0
    case MatchingConnectionKeepAlive => t != "" && ElementClass(t) == h && i + 1 == |t|
    case MatchingConnectionClose => t != "" && ElementClass(t) == h && i + 1 == |t|
    case MatchingConnectionUpgrade => t != "" && ElementClass(t) == h && i + 1 == |t|
    case ConnectionKeepAlive => ElementClass(t) == h
    case ConnectionClose => ElementClass(t) == h
    case ConnectionUpgrade => ElementClass(t) == h
    case MatchingConnectionToken => true
    case General => true
    case _ => false
  }

  lemma FirstLetters(t: string)
    requires t != ""
    ensures IsWord(t, KEEP_ALIVE) || IsPrefix(LowerCase(t), KEEP_ALIVE) ==> TokenLower(t[0]) == 'k' && IsToken(Lower(t[0]))
    ensures IsWord(t, CLOSE) || IsPrefix(LowerCase(t), CLOSE) ==> TokenLower(t[0]) == 'c' && IsToken(Lower(t[0]))
    ensures IsWord(t, UPGRADE) || IsPrefix(LowerCase(t), UPGRADE) ==> TokenLower(t[0]) == 'u' && IsToken(Lower(t[0]))
  {
    forall word | word in TOKENS && (IsWord(t, word) || IsPrefix(LowerCase(t), word))
      ensures TokenLower(t[0]) == word[0]
    {
      FirstLetter(t, word);
    }
  }

  lemma FirstLetter(t: string, word: string)
    requires t != "" && word in TOKENS && (IsWord(t, word) || IsPrefix(LowerCase(t), word))
    ensures TokenLower(t[0]) == word[0]
  {
    assert LowerCase(t)[0] == TokenLower(t[0]);
    if IsWord(t, word) {
      assert LowerCase(t[..|word|])[0] == TokenLower(t[0]);
    }
  }

  /** The element after one more byte of the value. */
  function NextElement(t: string, ch: char): string {
    if ch == ',' || (t == "" && Blank(ch)) then "" else t + [ch]
  }

  /** How one more byte changes whether an element is a keyword, or a beginning of one. */
  predicate Grows(t: string, ch: char, word: string) {
    && (IsPrefix(LowerCase(t + [ch]), word) <==> IsPrefix(LowerCase(t), word) && |t| < |word| && Lower(ch) == word[|t|])
    && (IsWord(t + [ch], word) <==> (IsWord(t, word) && ch == SP) || (IsPrefix(LowerCase(t + [ch]), word) && |t| + 1 == |word|))
    && (IsWord(t, word) ==> |t| >= |word|)
  }

  lemma NextClass(t: string, ch: char)
    requires !IsEol(ch)
    ensures Grows(t, ch, KEEP_ALIVE) && Grows(t, ch, CLOSE) && Grows(t, ch, UPGRADE)
    ensures t != "" ==> (t + [ch])[0] == t[0]
  {
    WordSnoc(t, ch, KEEP_ALIVE);
    WordSnoc(t, ch, CLOSE);
    WordSnoc(t, ch, UPGRADE);
  }

  lemma EmptyElement()
    ensures IsPrefix(LowerCase(""), KEEP_ALIVE) && IsPrefix(LowerCase(""), CLOSE) && IsPrefix(LowerCase(""), UPGRADE)
    ensures !IsWord("", KEEP_ALIVE) && !IsWord("", CLOSE) && !IsWord("", UPGRADE)
  {
    LowerEmpty();
  }

  lemma LowerFacts(ch: char)
    requires !IsEol(ch)
    ensures Lower(ch) == SP <==> Blank(ch)
    ensures Lower(ch) != HT && (ch == ',' ==> Lower(ch) == ',') && !IsToken(',') && !IsToken(SP)
    ensures forall word, i: nat | word in TOKENS && i < |word| :: word[i] != SP && word[i] != ',' && word[i] != '\0'
  {
  }

  predicate Comparing(h: HeaderState) {
    h in {MatchingConnectionKeepAlive, MatchingConnectionClose, MatchingConnectionUpgrade}
  }

  lemma MatchStep(word: string, t: string, ch: char, matching: HeaderState, whole: HeaderState, other: HeaderState)
    requires word in TOKENS && t != "" && !IsEol(ch) && IsPrefix(LowerCase(t), word) && !IsWord(t, word)
    ensures Match(word, |t|, Lower(ch), matching, whole, other)
         == if IsWord(t + [ch], word) then whole else if IsPrefix(LowerCase(t + [ch]), word) then matching else other
  {
    WordSnoc(t, ch, word);
  }

  lemma ComparingStep(h: HeaderState, i: nat, t: string, ch: char)
    requires Believed(h, i, t) && Comparing(h) && !IsEol(ch)
    ensures Believed(ListChar(h, i, ch).0, ListChar(h, i, ch).1, NextElement(t, ch))
  {
    var word := match h case MatchingConnectionKeepAlive => KEEP_ALIVE case MatchingConnectionClose => CLOSE case _ => UPGRADE;
    var whole := match h case MatchingConnectionKeepAlive => ConnectionKeepAlive case MatchingConnectionClose => ConnectionClose case _ => ConnectionUpgrade;
    hide IsPrefix, IsWord, IsToken, Lower, TokenLower, LowerCase, Match;
    assert ListChar(h, i, ch) == (Match(word, i + 1, Lower(ch), h, whole, MatchingConnectionToken), i + 1);
    hide ListChar;
    MatchStep(word, t, ch, h, whole, MatchingConnectionToken);
    FirstLetters(t + [ch]);
    if ch == ',' { WordSnoc(t, ch, word); LowerFacts(ch); }
  }

  lemma BetweenStep(h: HeaderState, i: nat, t: string, ch: char)
    requires Believed(h, i, t) && !IsEol(ch) && h.MatchingConnectionTokenStart?
    ensures Believed(ListChar(h, i, ch).0, ListChar(h, i, ch).1, NextElement(t, ch))
  {
    hide IsPrefix, IsWord, IsToken, Lower, TokenLower, LowerCase, Match;
    NextClass(t, ch);
    EmptyElement();
    if t != "" { FirstLetters(t); }
    LowerFacts(ch);
  }

  lemma ReadingStep(h: HeaderState, i: nat, t: string, ch: char)
    requires Believed(h, i, t) && !IsEol(ch) && !Comparing(h) && !h.MatchingConnectionTokenStart?
    ensures Believed(ListChar(h, i, ch).0, ListChar(h, i, ch).1, NextElement(t, ch))
  {
    hide IsPrefix, IsWord, IsToken, Lower, TokenLower, LowerCase, Match;
    NextClass(t, ch);
    EmptyElement();
    if t != "" { FirstLetters(t); }
    LowerFacts(ch);
  }

  lemma BelievedStep(h: HeaderState, i: nat, t: string, ch: char)
    requires Believed(h, i, t) && !IsEol(ch)
    ensures Believed(ListChar(h, i, ch).0, ListChar(h, i, ch).1, NextElement(t, ch))
  {
    hide Believed, ListChar, NextElement;
    if Comparing(h) {
      ComparingStep(h, i, t, ch);
    } else if h.MatchingConnectionTokenStart? {
      BetweenStep(h, i, t, ch);
    } else {
      ReadingStep(h, i, t, ch);
    }
  }

  lemma ExactComparing(h: HeaderState, i: nat, t: string, ch: char)
    requires Believed(h, i, t) && h == ElementClass(t) && !IsEol(ch) && ch != ','
    requires Comparing(h)
    ensures ListChar(h, i, ch).0 == ElementClass(NextElement(t, ch))
  {
    var word := match h case MatchingConnectionKeepAlive => KEEP_ALIVE case MatchingConnectionClose => CLOSE case _ => UPGRADE;
    var whole := match h case MatchingConnectionKeepAlive => ConnectionKeepAlive case MatchingConnectionClose => ConnectionClose case _ => ConnectionUpgrade;
    hide IsPrefix, IsWord, IsToken, Lower, TokenLower, LowerCase, Match;
    assert ListChar(h, i, ch) == (Match(word, i + 1, Lower(ch), h, whole, MatchingConnectionToken), i + 1);
    hide ListChar;
    MatchStep(word, t, ch, h, whole, MatchingConnectionToken);
    FirstLetters(t);
    FirstLetters(t + [ch]);
    assert (t + [ch])[0] == t[0];
  }

  lemma ExactReading(h: HeaderState, i: nat, t: string, ch: char)
    requires Believed(h, i, t) && h == ElementClass(t) && !IsEol(ch) && ch != ','
    requires !Comparing(h) && !h.MatchingConnectionTokenStart?
    ensures ListChar(h, i, ch).0 == ElementClass(NextElement(t, ch))
  {
    hide IsPrefix, IsWord, IsToken, Lower, TokenLower, LowerCase, Match;
    NextClass(t, ch);
    EmptyElement();
    if t != "" { FirstLetters(t); }
    FirstLetters(t + [ch]);
    LowerFacts(ch);
  }

  lemma ExactBetween(h: HeaderState, i: nat, t: string, ch: char)
    requires h.MatchingConnectionTokenStart? && t == "" && !IsEol(ch) && ch != ','
    ensures ListChar(h, i, ch).0 == ElementClass(NextElement(t, ch))
  {
    hide IsPrefix, IsWord, IsToken, Lower, TokenLower, LowerCase, Match;
    NextClass(t, ch);
    EmptyElement();
    LowerFacts(ch);
    var u := t + [ch];
    assert u[0] == ch && |u| == 1;
    assert IsPrefix(LowerCase(u), KEEP_ALIVE) <==> Lower(ch) == 'k';
    assert IsPrefix(LowerCase(u), CLOSE) <==> Lower(ch) == 'c';
    assert IsPrefix(LowerCase(u), UPGRADE) <==> Lower(ch) == 'u';
    if !Blank(ch) {
      assert NextElement(t, ch) == u;
    }
  }

  /** The parser goes on to know what it is reading. */
  lemma ExactStep(h: HeaderState, i: nat, t: string, ch: char)
    requires Believed(h, i, t) && h == ElementClass(t) && !IsEol(ch) && ch != ','
    ensures ListChar(h, i, ch).0 == ElementClass(NextElement(t, ch))
  {
    hide Believed, ListChar, NextElement, ElementClass;
    ClassRange(t);
    if Comparing(h) {
      ExactComparing(h, i, t, ch);
    } else if h.MatchingConnectionTokenStart? {
      ExactBetween(h, i, t, ch);
    } else {
      ExactReading(h, i, t, ch);
    }
  }

  /** Some element is this keyword. */
  predicate Has(es: seq<string>, word: string) {
    exists e | e in es :: IsWord(Trim(e), word)
  }

  lemma HasSnoc(es: seq<string>, e: string, word: string)
    ensures Has(es + [e], word) <==> Has(es, word) || IsWord(Trim(e), word)
  {
    if Has(es, word) {
      var x :| x in es && IsWord(Trim(x), word);
      assert x in es + [e];
    }
    if IsWord(Trim(e), word) {
      assert e in es + [e];
    }
  }

  lemma DistinctWords(t: string)
    ensures IsWord(t, KEEP_ALIVE) ==> !IsWord(t, CLOSE) && !IsWord(t, UPGRADE)
    ensures IsWord(t, CLOSE) ==> !IsWord(t, UPGRADE)
    ensures !IsWord("", KEEP_ALIVE) && !IsWord("", CLOSE) && !IsWord("", UPGRADE)
  {
    EmptyElement();
    if t != "" { FirstLetters(t); }
    hide IsWord, IsPrefix, LowerCase, Lower, TokenLower;
  }

  lemma ListPass(ps: Parser, ch: char)
    requires ps.hstate in {MatchingConnectionTokenStart, MatchingConnectionKeepAlive, MatchingConnectionClose, MatchingConnectionUpgrade,
                           ConnectionKeepAlive, ConnectionClose, ConnectionUpgrade, MatchingConnectionToken, General}
    ensures ValueChar(ps, ch)
         == Pass(ps.(hstate := ListChar(ps.hstate, ps.index, ch).0, index := ListChar(ps.hstate, ps.index, ch).1,
                     flags := if ch == ',' then FinishFlags(ps.hstate, ps.flags) else ps.flags),
                 Byte(Kind.Value), false, Next)
  {
    hide ListChar, FinishFlags;
  }

  // Which elements are looked at

  /** How the parser reads the next element: as the first one, looking at it, skipping it, or not at all any more. */
  datatype Mode = First | Look | Skip | Stop

  /** The classes of elements after which the parser stops: nothing but blanks, and what does not begin like a token. */
  predicate Ends(h: HeaderState) {
    h.MatchingConnectionTokenStart? || h.General?
  }

  /** After an element that is a proper beginning of a keyword the next one is skipped, because its comma is taken for a
      byte of the keyword. After an empty element, or one whose first byte is not a token character once LOWER has been
      applied, nothing is looked at any more; except that an empty first element skips the next one, and that any other
      first element goes on. */
  function NextMode(m: Mode, e: string): Mode {
    match m
    case First => if e == "" || (e[0] != '\0' && Comparing(ElementClass(Trim(e)))) then Skip else Look
    case Look =>
      if Comparing(ElementClass(Trim(e))) then Skip
      else if Ends(ElementClass(Trim(e))) then Stop
      else Look
    case Skip => Look
    case Stop => Stop
  }

  function ModeAfter(es: seq<string>): Mode {
    if es == [] then First else NextMode(ModeAfter(es[..|es| - 1]), es[|es| - 1])
  }

  /** A first element that begins with NUL (which only a lenient parser lets through) is passed over. */
  predicate Seen(m: Mode, e: string) {
    m.Look? || (m.First? && (e == "" || e[0] != '\0'))
  }

  /** The elements the parser looks at. */
  function LookedAt(es: seq<string>): seq<string> {
    if es == [] then []
    else
      var (front, e) := (es[..|es| - 1], es[|es| - 1]);
      LookedAt(front) + if Seen(ModeAfter(front), e) then [e] else []
  }

  lemma LookedAtSnoc(es: seq<string>, e: string)
    ensures LookedAt(es + [e]) == LookedAt(es) + if Seen(ModeAfter(es), e) then [e] else []
    ensures ModeAfter(es + [e]) == NextMode(ModeAfter(es), e)
    ensures !ModeAfter(es + [e]).First?
  {
    assert (es + [e])[..|es|] == es;
    hide Trim, ElementClass, Comparing;
  }

  /** What the parser knows of the element it is reading. */
  predicate Knows(m: Mode, h: HeaderState, e: string) {
    match m
    case First =>
      && e != "" && e[0] != SP
      && (if e[0] == '\0' then h.MatchingConnectionToken?
          else h == if ElementClass(e).General? then MatchingConnectionToken else ElementClass(e))
    case Look => h == ElementClass(Trim(e))
    case Skip => h.MatchingConnectionToken?
    case Stop => h.General?
  }

  lemma TrimFirst(e: string)
    requires e != "" && !Blank(e[0])
    ensures Trim(e) == e
  {
  }

  /** In Token and General the machine stays, but for a comma. */
  lemma StayStep(h: HeaderState, i: nat, ch: char)
    requires h.MatchingConnectionToken? || h.General?
    ensures ListChar(h, i, ch).0 == if h.MatchingConnectionToken? && ch == ',' then MatchingConnectionTokenStart else h
  {
  }

  lemma GeneralGoesOn(t: string, ch: char)
    requires t != "" && !IsEol(ch)
    ensures ElementClass(t + [ch]).General? <==> ElementClass(t).General?
  {
    hide IsPrefix, IsWord, IsToken, Lower, TokenLower, LowerCase;
    NextClass(t, ch);
    FirstLetters(t);
    FirstLetters(t + [ch]);
  }

  lemma CommaStep(h: HeaderState, i: nat)
    requires Comparing(h) || Ends(h) || h.MatchingConnectionToken? || h in {ConnectionKeepAlive, ConnectionClose, ConnectionUpgrade}
    ensures ListChar(h, i, ',').0
         == if Comparing(h) then MatchingConnectionToken else if Ends(h) then General else MatchingConnectionTokenStart
  {
    LowerFacts(',');
  }

  lemma ClassRange(t: string)
    ensures
      var h := ElementClass(t);
      Comparing(h) || Ends(h) || h.MatchingConnectionToken? || h in {ConnectionKeepAlive, ConnectionClose, ConnectionUpgrade}
    ensures t != "" ==> !ElementClass(t).MatchingConnectionTokenStart?
  {
  }

  /** One more byte of an element, and the comma after it. */
  lemma KnowsStep(m: Mode, h: HeaderState, i: nat, e: string, ch: char)
    requires Knows(m, h, e) && Believed(h, i, Trim(e)) && !IsEol(ch)
    ensures
      var h' := ListChar(h, i, ch).0;
      if ch == ',' then Knows(NextMode(m, e), h', "") else Knows(m, h', e + [ch])
  {
    hide Believed, ListChar, ElementClass, NextElement, Trim;
    ClassRange(Trim(e));
    EmptyClass();
    if h.MatchingConnectionToken? || h.General? { StayStep(h, i, ch); }
    if m.First? && !Blank(e[0]) {
      TrimFirst(e);
      GeneralGoesOn(e, ch);
    }
    if ch == ',' {
      if h == ElementClass(Trim(e)) { CommaStep(h, i); }
    } else {
      TrimSnoc(e, ch);
      NextTrim(e, ch);
      if h == ElementClass(Trim(e)) { ExactStep(h, i, Trim(e), ch); }
      if m.First? && !Blank(e[0]) {
        assert (e + [ch])[0] == e[0];
        TrimFirst(e + [ch]);
      }
    }
  }

  lemma NextTrim(e: string, ch: char)
    requires ch != ','
    ensures Trim(e + [ch]) == NextElement(Trim(e), ch)
  {
    TrimSnoc(e, ch);
    hide Trim;
  }

  lemma EmptyClass()
    ensures Trim("") == "" && ElementClass("").MatchingConnectionTokenStart?
  {
  }

  /** The Connection flags are those of before and of the elements looked at; no other flag changes. */
  predicate FlagsAre(f0: Flags, f: Flags, looked: seq<string>) {
    f == f0.(connectionKeepAlive := f0.connectionKeepAlive || Has(looked, KEEP_ALIVE),
             connectionClose := f0.connectionClose || Has(looked, CLOSE),
             connectionUpgrade := f0.connectionUpgrade || Has(looked, UPGRADE))
  }

  /** What the parser knows of a Connection value of which u has been read. */
  predicate ListKnown(ps: Parser, f0: Flags, u: string) {
    && Believed(ps.hstate, ps.index, Trim(Current(u)))
    && Knows(ModeAfter(Earlier(u)), ps.hstate, Current(u))
    && FlagsAre(f0, ps.flags, LookedAt(Earlier(u)))
  }

  /** An element sets its flag exactly if it is looked at and is the keyword. */
  lemma FinishElement(h: HeaderState, f0: Flags, f: Flags, es: seq<string>, e: string)
    requires Knows(ModeAfter(es), h, e) && FlagsAre(f0, f, LookedAt(es))
    ensures FlagsAre(f0, FinishFlags(h, f), LookedAt(es + [e]))
  {
    hide Has, LookedAt, ModeAfter, Trim, Comparing, IsWord, IsPrefix, LowerCase, Lower, ElementClass;
    LookedAtSnoc(es, e);
    var looked := LookedAt(es);
    assert looked + [] == looked;
    ClassWords(Trim(e));
    if e != "" && !Blank(e[0]) { TrimFirst(e); }
    if Seen(ModeAfter(es), e) {
      SeenElement(h, f0, f, looked, e);
    }
  }

  lemma SeenElement(h: HeaderState, f0: Flags, f: Flags, looked: seq<string>, e: string)
    requires FlagsAre(f0, f, looked)
    requires h.ConnectionKeepAlive? <==> IsWord(Trim(e), KEEP_ALIVE)
    requires h.ConnectionClose? <==> IsWord(Trim(e), CLOSE)
    requires h.ConnectionUpgrade? <==> IsWord(Trim(e), UPGRADE)
    requires !h.TransferEncodingChunked?
    ensures FlagsAre(f0, FinishFlags(h, f), looked + [e])
  {
    hide Has, Trim, IsWord;
    HasSnoc(looked, e, KEEP_ALIVE);
    HasSnoc(looked, e, CLOSE);
    HasSnoc(looked, e, UPGRADE);
  }

  lemma ClassWords(t: string)
    ensures
      var h := ElementClass(t);
      && (h.ConnectionKeepAlive? <==> IsWord(t, KEEP_ALIVE)) && (h.ConnectionClose? <==> IsWord(t, CLOSE))
      && (h.ConnectionUpgrade? <==> IsWord(t, UPGRADE)) && !h.TransferEncodingChunked?
  {
    DistinctWords(t);
    hide IsWord, IsPrefix, LowerCase, Lower, IsToken;
  }

  lemma NoElements()
    ensures Elements("") == [""] && Joined([""]) == "" && Current("") == "" && Earlier("") == []
  {
  }

  lemma ListByte(ps: Parser, f0: Flags, u: string, ch: char)
    requires ListKnown(ps, f0, u) && !IsEol(ch)
    ensures
      var r := ValueChar(ps, ch);
      && r.control.Next? && ListKnown(r.ps, f0, u + [ch])
      && r.ps == ps.(hstate := r.ps.hstate, index := r.ps.index, flags := r.ps.flags)
  {
    hide Elements, Earlier, Current, ListChar, LookedAt, ModeAfter, FlagsAre, Knows, NextMode, NextElement, Trim;
    var (es, e) := (Earlier(u), Current(u));
    BelievedStates(ps.hstate, ps.index, Trim(e));
    ListPass(ps, ch);
    CurrentSnoc(u, ch);
    BelievedStep(ps.hstate, ps.index, Trim(e), ch);
    KnowsStep(ModeAfter(es), ps.hstate, ps.index, e, ch);
    hide ValueChar, Believed, FinishFlags;
    EmptyClass();
    if ch == ',' {
      FinishElement(ps.hstate, f0, ps.flags, es, e);
      LookedAtSnoc(es, e);
      CommaElement(Trim(e));
    } else {
      NextTrim(e, ch);
    }
  }

  lemma BelievedStates(h: HeaderState, i: nat, t: string)
    requires Believed(h, i, t)
    ensures h in {MatchingConnectionTokenStart, MatchingConnectionKeepAlive, MatchingConnectionClose, MatchingConnectionUpgrade,
                  ConnectionKeepAlive, ConnectionClose, ConnectionUpgrade, MatchingConnectionToken, General}
  {
  }

  lemma CommaElement(t: string)
    ensures NextElement(t, ',') == ""
  {
  }

  /** The rest of a line of a list of which u has been read, and of which the line so far is held. */
  lemma {:induction false} ReadListRest(c: Config, f0: Flags, u: string, held: string, rest: string)
    requires Collects(c, held) && ListKnown(c.ps, f0, u) && NoEol(rest)
    ensures Legal(c.ps.lenient, rest) ==> Read(c, rest).Some?
    ensures Read(c, rest).Some? ==>
      var d := Read(c, rest).value;
      && Collects(d, held + rest) && d.calls == c.calls && ListKnown(d.ps, f0, u + rest)
      && d.ps == c.ps.(hstate := d.ps.hstate, index := d.ps.index, flags := d.ps.flags)
    decreases |rest|
  {
    hide Read, ValueChar, ListKnown;
    if rest == "" {
      assert u + rest == u && held + rest == held;
      ReadNothing(c);
    } else {
      var ch := rest[0];
      assert rest == [ch] + rest[1..];
      assert u + rest == u + [ch] + rest[1..] && held + rest == held + [ch] + rest[1..];
      ListByte(c.ps, f0, u, ch);
      var d := ReadValueByte(c, held, ch, rest[1..]);
      ReadListRest(d, f0, u + [ch], held + [ch], rest[1..]);
    }
  }

  /** The first byte of a value that does not begin with a comma. */
  lemma FirstElement(ch: char)
    requires !IsEol(ch) && ch != SP && ch != ','
    ensures
      var h := FirstValueState(HeaderState.Connection, Lower(ch));
      && Believed(h, 0, Trim([ch])) && Knows(First, h, [ch])
  {
    hide IsPrefix, IsWord, LowerCase, IsToken, TokenLower, Lower;
    assert "" + [ch] == [ch];
    NextClass("", ch);
    EmptyElement();
    FirstLetters([ch]);
    LowerFacts(ch);
  }

  lemma FirstComma(ch: char)
    requires ch == ','
    ensures FirstValueState(HeaderState.Connection, Lower(ch)).MatchingConnectionToken?
  {
  }

  lemma ListFirst(ps: Parser, ch: char)
    requires ps.hstate.Connection? && !IsEol(ch) && ch != SP
    ensures ListKnown(FirstValueChar(ps, ch).ps, ps.flags, [ch])
  {
    hide Elements, Current, Earlier, FirstValueState, Trim, ElementClass, IsWord, Comparing;
    CurrentSnoc("", ch);
    NoElements();
    assert "" + [ch] == [ch];
    assert [] + [""] == [""];
    LookedAtSnoc([], "");
    EmptyClass();
    EmptyElement();
    if ch == ',' {
      FirstComma(ch);
      assert LookedAt([""]) == [""];
    } else {
      FirstElement(ch);
    }
  }

  /** The Connection flags are set exactly for the elements that the parser looks at: a flag is set if it was before, or if
      some such element is its keyword, in any case. */
  lemma ConnectionExact(c: Config, v: string)
    requires v != "" && AtValue(c.ps, v[0]) && v[0] != SP && c.pend == None && c.ps.hstate.Connection? && NoEol(v)
    ensures Legal(c.ps.lenient, v) ==> Read(c, v).Some?
    ensures Read(c, v).Some? ==>
      var d := Read(c, v).value;
      && Collects(d, v) && d.calls == c.calls
      && d.ps == c.ps.(state := Fields(InValue), hstate := d.ps.hstate, index := d.ps.index, flags := d.ps.flags)
      && FlagsAre(c.ps.flags, Finish(d.ps).flags, LookedAt(Elements(v))) && ListKnown(d.ps, c.ps.flags, v)
  {
    hide Read, ValueChar, ListKnown, ListChar, FlagsAre, LookedAt, Elements;
    var ch := v[0];
    assert v == [ch] + v[1..];
    var d := ReadFirstValueByte(c, ch, v[1..]);
    ListFirst(c.ps, ch);
    ReadListRest(d, c.ps.flags, [ch], [ch], v[1..]);
    if Read(c, v).Some? {
      FinishList(Read(c, v).value.ps, c.ps.flags, v);
    }
  }

  lemma FinishList(ps: Parser, f0: Flags, v: string)
    requires ListKnown(ps, f0, v)
    ensures FlagsAre(f0, Finish(ps).flags, LookedAt(Elements(v)))
  {
    hide Believed, Knows, FlagsAre, FinishFlags, LookedAt, ModeAfter, Trim;
    FinishElement(ps.hstate, f0, ps.flags, Earlier(v), Current(v));
    assert Earlier(v) + [Current(v)] == Elements(v);
  }

  // What it means to be looked at

  /** Only elements are looked at: so a flag is set only if some element is its keyword. */
  lemma {:induction false} LookedAtElements(es: seq<string>, word: string)
    ensures Has(LookedAt(es), word) ==> Has(es, word)
    decreases |es|
  {
    hide Trim, IsWord, ModeAfter, Seen;
    if es != [] {
      var (front, e) := (es[..|es| - 1], es[|es| - 1]);
      LookedAtElements(front, word);
      assert front + [e] == es;
      HasSnoc(front, e, word);
      HasSnoc(LookedAt(front), e, word);
      assert LookedAt(front) + [] == LookedAt(front);
    }
  }

  /** An element after which the parser looks at the next one. */
  predicate Ordinary(e: string) {
    e != "" && e[0] != '\0' && !Comparing(ElementClass(Trim(e))) && !Ends(ElementClass(Trim(e)))
  }

  /** In a list whose elements but the last are ordinary every element is looked at. */
  lemma {:induction false} OrdinaryList(es: seq<string>)
    requires es != [] && (forall i | 0 <= i < |es| - 1 :: Ordinary(es[i])) && (|es| == 1 ==> es[0] == "" || es[0][0] != '\0')
    ensures LookedAt(es) == es
    ensures ModeAfter(es[..|es| - 1]) == if |es| == 1 then First else Look
    decreases |es|
  {
    hide Trim, ElementClass, Comparing, Ends;
    var (front, e) := (es[..|es| - 1], es[|es| - 1]);
    assert front + [e] == es;
    if |es| == 1 {
      assert LookedAt(front) == [];
      assert [] + [e] == es;
    } else {
      assert front[|front| - 1] == es[|es| - 2];
      OrdinaryList(front);
    }
  }

  /** An element that is looked at and is a proper beginning of a keyword swallows its comma: the next element is not
      looked at, whatever it is, and the one after that is. */
  lemma SwallowedComma(es: seq<string>, e: string, x: string)
    requires Seen(ModeAfter(es), e) && e != "" && Comparing(ElementClass(Trim(e)))
    ensures LookedAt(es + [e] + [x]) == LookedAt(es + [e]) && ModeAfter(es + [e] + [x]) == Look
  {
    hide Trim, ElementClass, Comparing, ModeAfter, LookedAt;
    LookedAtSnoc(es, e);
    LookedAtSnoc(es + [e], x);
    assert LookedAt(es + [e]) + [] == LookedAt(es + [e]);
  }

  /** After a later element that is empty, or does not begin like a token, nothing is looked at. */
  lemma {:induction false} EndedList(es: seq<string>, e: string, rest: seq<string>)
    requires ModeAfter(es) == Look && Ends(ElementClass(Trim(e)))
    ensures LookedAt(es + [e] + rest) == LookedAt(es) + [e] && ModeAfter(es + [e] + rest) == Stop
    decreases |rest|
  {
    hide Trim, ElementClass, ModeAfter, LookedAt;
    LookedAtSnoc(es, e);
    NotComparing(ElementClass(Trim(e)));
    if rest == [] {
      assert es + [e] + rest == es + [e];
    } else {
      var (front, x) := (rest[..|rest| - 1], rest[|rest| - 1]);
      EndedList(es, e, front);
      assert es + [e] + front + [x] == es + [e] + rest;
      LookedAtSnoc(es + [e] + front, x);
      assert LookedAt(es) + [e] + [] == LookedAt(es) + [e];
    }
  }

  lemma NotComparing(h: HeaderState)
    requires Ends(h)
    ensures !Comparing(h)
  {
  }

  /** The classes in plain words. An element skips the next one if it is a proper beginning of a keyword, in any case; and
      it ends the list if it is empty, or if LOWER of its first byte is not a token character (as for an underscore). */
  lemma ClassMeaning(t: string)
    ensures Comparing(ElementClass(t)) <==>
      t != "" && exists word | word in TOKENS :: |t| < |word| && IsPrefix(LowerCase(t), word)
    ensures Ends(ElementClass(t)) <==> t == "" || !IsToken(Lower(t[0]))
  {
    if t != "" { FirstLetters(t); }
    Lengths(t);
    hide IsPrefix, IsWord, IsToken, Lower, LowerCase, TokenLower;
    assert forall word | word in TOKENS :: word == KEEP_ALIVE || word == CLOSE || word == UPGRADE;
    assert KEEP_ALIVE in TOKENS && CLOSE in TOKENS && UPGRADE in TOKENS;
    BeginningLength(t);
  }

  lemma BeginningLength(t: string)
    ensures IsPrefix(LowerCase(t), KEEP_ALIVE) && !IsWord(t, KEEP_ALIVE) ==> |t| < |KEEP_ALIVE|
    ensures IsPrefix(LowerCase(t), CLOSE) && !IsWord(t, CLOSE) ==> |t| < |CLOSE|
    ensures IsPrefix(LowerCase(t), UPGRADE) && !IsWord(t, UPGRADE) ==> |t| < |UPGRADE|
  {
    WordSnoc(t, SP, KEEP_ALIVE);
    WordSnoc(t, SP, CLOSE);
    WordSnoc(t, SP, UPGRADE);
    hide IsWord, LowerCase;
  }

  // Some lists

  lemma {:induction false} OneElement(p: string)
    requires ',' !in p
    ensures Elements(p) == [p]
    decreases |p|
  {
    hide Elements;
    NoElements();
    if p != "" {
      var (u, ch) := (p[..|p| - 1], p[|p| - 1]);
      assert u + [ch] == p;
      assert ch in p && forall x | x in u :: x in p;
      OneElement(u);
      ElementsSnoc(u, ch);
    }
  }

  lemma {:induction false} OneMoreElement(v: string, e: string)
    requires ',' !in e
    ensures Elements(v + "," + e) == Elements(v) + [e]
    decreases |e|
  {
    hide Elements;
    if e == "" {
      assert v + "," + e == v + [','];
      ElementsSnoc(v, ',');
    } else {
      var (u, ch) := (e[..|e| - 1], e[|e| - 1]);
      assert ch in e && forall x | x in u :: x in e;
      OneMoreElement(v, u);
      assert u + [ch] == e;
      assert v + "," + e == v + "," + u + [ch];
      ElementsSnoc(v + "," + u, ch);
      assert (Elements(v) + [u])[..|Elements(v)|] == Elements(v);
    }
  }

  /** "clo" is the beginning of a keyword, "x" an ordinary element, "close" a keyword. */
  lemma SomeClasses()
    ensures Comparing(ElementClass(Trim("clo"))) && ElementClass(Trim("x")).MatchingConnectionToken?
    ensures ElementClass(Trim("")).MatchingConnectionTokenStart?
    ensures IsWord(Trim("close"), CLOSE) && !IsWord(Trim("clo"), CLOSE) && !IsWord(Trim("x"), CLOSE) && !IsWord(Trim(""), CLOSE)
  {
    assert Trim("clo") == "clo" && Trim("x") == "x" && Trim("close") == "close";
    assert LowerCase("clo") == CLOSE[..3] && "close"[..5] == "close" && LowerCase("close") == CLOSE;
    assert IsPrefix(LowerCase("clo"), CLOSE);
    FirstLetters("clo");
    FirstLetters("x");
    Lengths("clo");
    Lengths("x");
    hide IsPrefix, LowerCase;
  }

  lemma Lengths(t: string)
    ensures IsWord(t, KEEP_ALIVE) ==> |t| >= 10
    ensures IsWord(t, CLOSE) ==> |t| >= 5
    ensures IsWord(t, UPGRADE) ==> |t| >= 7
  {
  }

  lemma HasOf(e: string, word: string)
    ensures Has([e], word) <==> IsWord(Trim(e), word)
    ensures !Has([], word)
  {
    hide Trim, IsWord;
    assert e in [e];
  }

  /** "close" is an element of the list, and the parser does not look at it. */
  predicate Overlooks(v: string) {
    Has(Elements(v), CLOSE) && !Has(LookedAt(Elements(v)), CLOSE)
  }

  /** In "clo,close" the beginning of a keyword swallows its comma. */
  lemma SwallowedClose()
    ensures Overlooks("clo" + "," + "close")
  {
    hide Elements, Trim, IsWord, ElementClass, Comparing, LookedAt, ModeAfter, Has;
    var (c, k) := ("clo", "close");
    SomeClasses();
    NothingLookedAt();
    OneElement(c);
    OneMoreElement(c, k);
    assert [] + [c] == [c];
    SwallowedComma([], c, k);
    LookedAtSnoc([], c);
    HasOf(c, CLOSE);
    HasSnoc([c], k, CLOSE);
  }

  /** So it does in "x,clo,close", where it is not the first element. */
  lemma LaterSwallowedClose()
    ensures Overlooks("x" + "," + "clo" + "," + "close")
  {
    hide Elements, Trim, IsWord, ElementClass, Comparing, LookedAt, ModeAfter, Has;
    var (c, k, x) := ("clo", "close", "x");
    AfterX();
    OneMoreElement(x, c);
    OneMoreElement(x + "," + c, k);
    assert [x] + [c] == [x, c];
    SomeClasses();
    SwallowedComma([x], c, k);
    LookedAtSnoc([x], c);
    HasOf(x, CLOSE);
    HasSnoc([x], c, CLOSE);
    HasSnoc([x, c], k, CLOSE);
  }

  /** In "x,,close" the empty element ends the list for the parser. */
  lemma CloseAfterTheEnd()
    ensures Overlooks("x" + "," + "" + "," + "close")
  {
    hide Elements, Trim, IsWord, ElementClass, Comparing, LookedAt, ModeAfter, Has;
    var (k, x) := ("close", "x");
    AfterX();
    OneMoreElement(x, "");
    OneMoreElement(x + "," + "", k);
    assert [x] + [""] == [x, ""];
    SomeClasses();
    EndedList([x], "", [k]);
    HasOf(x, CLOSE);
    HasSnoc([x], "", CLOSE);
    HasSnoc([x, ""], k, CLOSE);
  }

  lemma AfterX()
    ensures Elements("x") == ["x"] && LookedAt(["x"]) == ["x"] && ModeAfter(["x"]) == Look
  {
    hide Elements, Trim, IsWord, ElementClass, Comparing, LookedAt, ModeAfter, Has;
    SomeClasses();
    NothingLookedAt();
    OneElement("x");
    assert [] + ["x"] == ["x"];
    LookedAtSnoc([], "x");
    ClassesDiffer();
  }

  lemma NothingLookedAt()
    ensures LookedAt([]) == [] && ModeAfter([]) == First
  {
  }

  lemma ClassesDiffer()
    ensures forall h | Comparing(h) :: !Ends(h) && !h.MatchingConnectionToken?
  {
  }

  /** But in "clo,x,close" only "x" is skipped. */
  lemma SeenClose()
    ensures Has(LookedAt(Elements("clo" + "," + "x" + "," + "close")), CLOSE)
  {
    hide Elements, Trim, IsWord, ElementClass, Comparing, LookedAt, ModeAfter, Has;
    var (c, k, x) := ("clo", "close", "x");
    SomeClasses();
    OneElement(c);
    OneMoreElement(c, x);
    OneMoreElement(c + "," + x, k);
    NothingLookedAt();
    assert [] + [c] == [c] && [c] + [x] == [c, x];
    SwallowedComma([], c, x);
    LookedAtSnoc([c, x], k);
    HasSnoc(LookedAt([c, x]), k, CLOSE);
  }

  const OVERLOOKED: set<string> := {"clo" + "," + "close", "x" + "," + "clo" + "," + "close", "x" + "," + "" + "," + "close"}
  const SEEN: string := "clo" + "," + "x" + "," + "close"

  predicate Letters(v: string) {
    v != "" && forall i | 0 <= i < |v| :: v[i] == ',' || 'a' <= v[i] <= 'z'
  }

  lemma SomeLists(v: string)
    ensures v in OVERLOOKED ==> Overlooks(v) && Letters(v)
    ensures Has(LookedAt(Elements(SEEN)), CLOSE) && Letters(SEEN)
  {
    SwallowedClose();
    LaterSwallowedClose();
    CloseAfterTheEnd();
    SeenClose();
    hide Overlooks, Has, LookedAt, Elements;
  }
}
