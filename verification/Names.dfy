/** Recognition of header names is exact: the parser treats a field specially exactly when its name is,
    up to the case of letters, one of the five names it knows. */
module Names {
  import opened Characters
  import opened Http
  import opened Machine
  import opened Reading
  import opened Alphabets

  predicate IsPrefix(u: string, word: string) {
    |u| <= |word| && u == word[..|u|]
  }

  function LowerCase(s: string): (r: string)
    ensures |r| == |s|
  {
    seq(|s|, i requires 0 <= i < |s| => TokenLower(s[i]))
  }

  predicate AllTokens(s: string) {
    forall i | 0 <= i < |s| :: IsToken(s[i])
  }

  /** What the parser should know of a name whose lower-case form is u so far. */
  function NameClass(u: string): HeaderState {
    if u == CONNECTION || u == PROXY_CONNECTION then Connection
    else if u == CONTENT_LENGTH then ContentLength
    else if u == TRANSFER_ENCODING then TransferEncoding
    else if u == UPGRADE then Upgrade
    else if u == "c" then C
    else if u == "co" then CO
    else if u == "con" then CON
    else if u != "" && IsPrefix(u, CONNECTION) then MatchingConnection
    else if u != "" && IsPrefix(u, PROXY_CONNECTION) then MatchingProxyConnection
    else if u != "" && IsPrefix(u, CONTENT_LENGTH) then MatchingContentLength
    else if u != "" && IsPrefix(u, TRANSFER_ENCODING) then MatchingTransferEncoding
    else if u != "" && IsPrefix(u, UPGRADE) then MatchingUpgrade
    else General
  }

  /** The parser knows the class of the name read so far, and its index where it is comparing. */
  predicate NameKnown(h: HeaderState, i: nat, u: string) {
    h == NameClass(u) && (h.General? || h.Connection? || h.ContentLength? || h.TransferEncoding? || h.Upgrade? || i + 1 == |u|)
  }

  lemma PrefixSnoc(u: string, c: char, word: string)
    ensures IsPrefix(u + [c], word) <==> IsPrefix(u, word) && |u| < |word| && word[|u|] == c
    ensures u == word <==> IsPrefix(u, word) && |u| == |word|
    ensures u + [c] == word <==> IsPrefix(u + [c], word) && |u| + 1 == |word|
  {
    if IsPrefix(u + [c], word) {
      assert u == (u + [c])[..|u|] == word[..|u|];
    }
    if IsPrefix(u, word) && |u| < |word| {
      assert word[..|u| + 1] == word[..|u|] + [word[|u|]];
    }
  }

  lemma NameFirst(c: char)
    ensures NameKnown(FirstNameChar(c), 0, [c])
  {
    PrefixSnoc("", c, CONNECTION);
    PrefixSnoc("", c, PROXY_CONNECTION);
    PrefixSnoc("", c, CONTENT_LENGTH);
    PrefixSnoc("", c, TRANSFER_ENCODING);
    PrefixSnoc("", c, UPGRADE);
    assert "" + [c] == [c];
  }

  /** Where the two names that begin with "con" are distinguished. */
  lemma ShortNames(u: string)
    ensures u == "c" <==> IsPrefix(u, CONNECTION) && |u| == 1
    ensures u == "co" <==> IsPrefix(u, CONNECTION) && |u| == 2
    ensures u == "con" <==> IsPrefix(u, CONNECTION) && |u| == 3
    ensures |u| <= 3 ==> (IsPrefix(u, CONNECTION) <==> IsPrefix(u, CONTENT_LENGTH))
    ensures |u| > 3 && IsPrefix(u, CONNECTION) ==> !IsPrefix(u, CONTENT_LENGTH)
    ensures |u| > 0 && IsPrefix(u, CONNECTION) ==> u[0] == 'c'
    ensures |u| > 0 && IsPrefix(u, CONTENT_LENGTH) ==> u[0] == 'c'
    ensures |u| > 0 && IsPrefix(u, PROXY_CONNECTION) ==> u[0] == 'p'
    ensures |u| > 0 && IsPrefix(u, TRANSFER_ENCODING) ==> u[0] == 't'
    ensures |u| > 0 && IsPrefix(u, UPGRADE) ==> u[0] == 'u'
  {
    if |u| > 3 && IsPrefix(u, CONNECTION) {
      assert u[3] == 'n' && CONTENT_LENGTH[3] == 't';
    }
    if |u| <= 3 {
      assert CONNECTION[..|u|] == CONTENT_LENGTH[..|u|];
    }
  }

  lemma NameStep(h: HeaderState, i: nat, u: string, c: char)
    requires u != "" && NameKnown(h, i, u)
    ensures NameKnown(NameChar(h, i, c).0, NameChar(h, i, c).1, u + [c])
  {
    PrefixSnoc(u, c, CONNECTION);
    PrefixSnoc(u, c, PROXY_CONNECTION);
    PrefixSnoc(u, c, CONTENT_LENGTH);
    PrefixSnoc(u, c, TRANSFER_ENCODING);
    PrefixSnoc(u, c, UPGRADE);
    ShortNames(u);
    ShortNames(u + [c]);
    hide IsPrefix;
  }

  lemma FieldStartPass(ps: Parser, skip: bool, ch: char)
    requires ps.state == Fields(FieldStart) && !IsEol(ch)
    ensures PassOf(ps, skip, ch)
         == if IsToken(ch) then
              Pass(ps.(state := Fields(InField), index := 0, hstate := FirstNameChar(TokenLower(ch))), Byte(Kind.Field), false, Next)
            else Error(ps, INVALID_HEADER_TOKEN)
  {
    hide StartPass, StatusLinePass, TargetPass, VersionPass, EndingPass, ChunkPass, ContentPass, FirstNameChar;
  }

  lemma InFieldPass(ps: Parser, skip: bool, ch: char)
    requires ps.state == Fields(InField)
    ensures PassOf(ps, skip, ch)
         == if IsToken(ch) then
              var (h, i) := NameChar(ps.hstate, ps.index, TokenLower(ch));
              Pass(ps.(hstate := h, index := i), Byte(Kind.Field), false, Next)
            else if ch == ':' then Pass(ps.(state := Fields(DiscardWs)), Deliver(Kind.Field), false, Next)
            else Error(ps, INVALID_HEADER_TOKEN)
  {
    hide StartPass, StatusLinePass, TargetPass, VersionPass, EndingPass, ChunkPass, ContentPass, NameChar;
  }

  /** The parser once a name has been read up to its colon. */
  predicate NameDone(c: Config, name: string, d: Config) {
    && d.ps == c.ps.(state := Fields(DiscardWs), index := d.ps.index, hstate := NameClass(LowerCase(name)))
    && d.calls == c.calls + [Data(Kind.Field, name)] && d.pend == None && !d.skip
  }

  lemma LowerSnoc(u: string, c: char)
    ensures LowerCase(u + [c]) == LowerCase(u) + [TokenLower(c)]
  {
  }

  lemma {:induction false} ReadNameRest(c: Config, u: string, rest: string)
    requires c.ps.state == Fields(InField) && c.pend == Some(u) && u != "" && ':' !in rest
    requires NameKnown(c.ps.hstate, c.ps.index, LowerCase(u))
    ensures Read(c, rest + ":").Some? <==> AllTokens(rest)
    ensures
      var d := Read(c, rest + ":");
      d.Some? ==>
        && d.value.ps == c.ps.(state := Fields(DiscardWs), index := d.value.ps.index, hstate := NameClass(LowerCase(u + rest)))
        && d.value.calls == c.calls + [Data(Kind.Field, u + rest)] && d.value.pend == None && !d.value.skip
    decreases |rest|
  {
    hide PassOf, Read, NameClass, NameChar, LowerCase, Passes, FirstNameChar;
    var ch := if rest == "" then ':' else rest[0];
    InFieldPass(c.ps, c.skip, ch);
    if rest == "" {
      assert rest + ":" == [':'] + [];
      var d := ReadPass(c, ':', PassOf(c.ps, c.skip, ':'), []);
      ReadNothing(d);
      assert u + rest == u;
    } else {
      assert rest + ":" == [ch] + (rest[1..] + ":");
      ReadFirst(c, ch, rest[1..] + ":");
      if IsToken(ch) {
        var d := ReadPass(c, ch, PassOf(c.ps, c.skip, ch), rest[1..] + ":");
        LowerSnoc(u, ch);
        NameStep(c.ps.hstate, c.ps.index, LowerCase(u), TokenLower(ch));
        assert d.calls == c.calls;
        ReadNameRest(d, u + [ch], rest[1..]);
        assert u + [ch] + rest[1..] == u + rest;
        assert AllTokens(rest) <==> AllTokens(rest[1..]) by {
          assert rest == [ch] + rest[1..];
        }
      } else {
        FailedRead(c, ch, rest[1..] + ":");
        assert !IsToken(rest[0]);
      }
    }
  }

  /** Header name recognition is exact. */
  lemma NameExact(c: Config, name: string)
    requires c.ps.state == Fields(FieldStart) && c.pend == None
    requires name != "" && !IsEol(name[0]) && ':' !in name[1..]
    ensures Read(c, name + ":").Some? <==> AllTokens(name)
    ensures Read(c, name + ":").Some? ==>
      var d := Read(c, name + ":").value;
      && NameDone(c, name, d)
      && (d.ps.hstate.ContentLength? <==> IsSpelled(name, "content-length"))
      && (d.ps.hstate.TransferEncoding? <==> IsSpelled(name, "transfer-encoding"))
      && (d.ps.hstate.Upgrade? <==> IsSpelled(name, "upgrade"))
      && (d.ps.hstate.Connection? <==> IsSpelled(name, "connection") || IsSpelled(name, "proxy-connection"))
  {
    NameMeaning(LowerCase(name));
    SpelledNames(name);
    hide PassOf, Read, NameClass, NameChar, LowerCase, Passes, FirstNameChar;
    var ch := name[0];
    var rest := name[1..];
    assert name + ":" == [ch] + (rest + ":");
    assert name == [ch] + rest;
    FieldStartPass(c.ps, c.skip, ch);
    if IsToken(ch) {
      var d := ReadPass(c, ch, PassOf(c.ps, c.skip, ch), rest + ":");
      assert "" + [ch] == [ch];
      assert LowerCase([ch]) == [TokenLower(ch)] by { LowerSnoc("", ch); LowerEmpty(); }
      NameFirst(TokenLower(ch));
      assert d.calls == c.calls;
      ReadNameRest(d, [ch], rest);
    } else {
      FailedRead(c, ch, rest + ":");
    }
  }

  /** LowerCase says what it should of a word in small letters. */
  lemma LowerSpells(s: string, w: string)
    requires forall i | 0 <= i < |w| :: w[i] == '-' || 'a' <= w[i] <= 'z'
    ensures LowerCase(s) == w <==> IsSpelled(s, w)
  {
    hide TokenLower, SameLetter;
    if |s| == |w| {
      forall i | 0 <= i < |s| ensures SameLetter(s[i], w[i]) <==> LowerCase(s)[i] == w[i] {
        InCapital(w[i]);
        SameLower(s[i], w[i]);
      }
    }
  }

  lemma SpelledNames(name: string)
    ensures LowerCase(name) == CONTENT_LENGTH <==> IsSpelled(name, "content-length")
    ensures LowerCase(name) == TRANSFER_ENCODING <==> IsSpelled(name, "transfer-encoding")
    ensures LowerCase(name) == UPGRADE <==> IsSpelled(name, "upgrade")
    ensures LowerCase(name) == CONNECTION <==> IsSpelled(name, "connection")
    ensures LowerCase(name) == PROXY_CONNECTION <==> IsSpelled(name, "proxy-connection")
  {
    hide LowerCase, IsSpelled;
    LowerSpells(name, CONTENT_LENGTH);
    LowerSpells(name, TRANSFER_ENCODING);
    LowerSpells(name, UPGRADE);
    LowerSpells(name, CONNECTION);
    LowerSpells(name, PROXY_CONNECTION);
  }

  lemma NameMeaning(u: string)
    ensures NameClass(u).ContentLength? <==> u == CONTENT_LENGTH
    ensures NameClass(u).TransferEncoding? <==> u == TRANSFER_ENCODING
    ensures NameClass(u).Upgrade? <==> u == UPGRADE
    ensures NameClass(u).Connection? <==> u in {CONNECTION, PROXY_CONNECTION}
  {
  }

  lemma LowerEmpty()
    ensures LowerCase("") == ""
  {
  }
}
