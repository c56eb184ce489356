/** Transfer-Encoding and Connection: the flags a header value sets, element by element. */
module Lists {
  import opened Characters
  import opened Http
  import opened Machine
  import opened Names
  import opened Reading
  import opened Values
  import opened Alphabets

  const KEYWORDS: set<string> := {CHUNKED, KEEP_ALIVE, CLOSE, UPGRADE}

  /** A keyword, in any case, and then nothing but spaces. */
  predicate IsWord(t: string, word: string) {
    |t| >= |word| && LowerCase(t[..|word|]) == word && AllSpaces(t[|word|..])
  }

  /** LOWER folds exactly the letters of a keyword, once line ends are out of the way. */
  lemma KeywordLetter(word: string, i: nat, ch: char)
    requires word in KEYWORDS && i < |word| && !IsEol(ch)
    ensures Lower(ch) == word[i] <==> TokenLower(ch) == word[i]
    ensures word[i] == '-' || 'a' <= word[i] <= 'z'
  {
  }

  lemma WordSnoc(t: string, ch: char, word: string)
    requires word in KEYWORDS && !IsEol(ch)
    ensures IsPrefix(LowerCase(t + [ch]), word) <==> IsPrefix(LowerCase(t), word) && |t| < |word| && Lower(ch) == word[|t|]
    ensures IsWord(t + [ch], word) <==>
      (IsWord(t, word) && ch == SP) || (IsPrefix(LowerCase(t + [ch]), word) && |t| + 1 == |word|)
    ensures IsPrefix(LowerCase(t), word) && |t| == |word| ==> IsWord(t, word)
  {
    LowerSnoc(t, ch);
    PrefixSnoc(LowerCase(t), TokenLower(ch), word);
    if |t| < |word| { KeywordLetter(word, |t|, ch); }
    if |t| >= |word| {
      assert (t + [ch])[..|word|] == t[..|word|];
      assert (t + [ch])[|word|..] == t[|word|..] + [ch];
      if AllSpaces(t[|word|..] + [ch]) {
        assert (t[|word|..] + [ch])[|t| - |word|] == ch;
        assert forall i | 0 <= i < |t| - |word| :: t[|word|..][i] == (t[|word|..] + [ch])[i];
      }
    }
    if |t| + 1 == |word| {
      assert (t + [ch])[..|word|] == t + [ch];
    }
    if |t| == |word| {
      assert t[..|word|] == t;
    }
  }

  /** The keywords in plain letters. */
  lemma SpelledWords(t: string)
    ensures IsWord(t, CHUNKED) <==> |t| >= 7 && IsSpelled(t[..7], "chunked") && forall i | 7 <= i < |t| :: t[i] == ' '
    ensures IsWord(t, KEEP_ALIVE) <==> |t| >= 10 && IsSpelled(t[..10], "keep-alive") && forall i | 10 <= i < |t| :: t[i] == ' '
    ensures IsWord(t, CLOSE) <==> |t| >= 5 && IsSpelled(t[..5], "close") && forall i | 5 <= i < |t| :: t[i] == ' '
    ensures IsWord(t, UPGRADE) <==> |t| >= 7 && IsSpelled(t[..7], "upgrade") && forall i | 7 <= i < |t| :: t[i] == ' '
  {
    hide IsSpelled;
    SpelledWord(t, CHUNKED);
    SpelledWord(t, KEEP_ALIVE);
    SpelledWord(t, CLOSE);
    SpelledWord(t, UPGRADE);
  }

  lemma SpelledWord(t: string, word: string)
    requires forall i | 0 <= i < |word| :: word[i] == '-' || 'a' <= word[i] <= 'z'
    ensures IsWord(t, word) <==> |t| >= |word| && IsSpelled(t[..|word|], word) && forall i | |word| <= i < |t| :: t[i] == ' '
  {
    hide LowerCase, IsSpelled;
    if |t| >= |word| {
      LowerSpells(t[..|word|], word);
      assert forall i | 0 <= i < |t| - |word| :: t[|word|..][i] == t[|word| + i];
      if AllSpaces(t[|word|..]) {
        forall i | |word| <= i < |t| ensures t[i] == ' ' { assert t[|word|..][i - |word|] == t[i]; }
      }
    }
  }

  // Transfer-Encoding

  /** What the parser knows of a Transfer-Encoding value of which u has been read. */
  predicate CodingKnown(h: HeaderState, i: nat, u: string) {
    if IsWord(u, CHUNKED) then h.TransferEncodingChunked?
    else if IsPrefix(LowerCase(u), CHUNKED) then h.MatchingTransferEncodingChunked? && i + 1 == |u|
    else h.General?
  }

  lemma CodingByte(ps: Parser, u: string, ch: char)
    requires u != "" && CodingKnown(ps.hstate, ps.index, u) && !IsEol(ch)
    ensures
      var r := ValueChar(ps, ch);
      && r.control.Next? && CodingKnown(r.ps.hstate, r.ps.index, u + [ch])
      && r.ps == ps.(hstate := r.ps.hstate, index := r.ps.index)
  {
    WordSnoc(u, ch, CHUNKED);
    hide IsWord, IsPrefix;
  }

  lemma {:induction false} ReadCodingRest(c: Config, u: string, rest: string)
    requires Collects(c, u) && u != "" && CodingKnown(c.ps.hstate, c.ps.index, u) && NoEol(rest)
    ensures Legal(c.ps.lenient, rest) ==> Read(c, rest).Some?
    ensures Read(c, rest).Some? ==>
      var d := Read(c, rest).value;
      && Collects(d, u + rest) && d.calls == c.calls && CodingKnown(d.ps.hstate, d.ps.index, u + rest)
      && d.ps == c.ps.(hstate := d.ps.hstate, index := d.ps.index)
    decreases |rest|
  {
    hide Read, ValueChar, CodingKnown;
    if rest == "" {
      assert u + rest == u;
      ReadNothing(c);
    } else {
      var ch := rest[0];
      assert rest == [ch] + rest[1..];
      assert u + rest == u + [ch] + rest[1..];
      CodingByte(c.ps, u, ch);
      var d := ReadValueByte(c, u, ch, rest[1..]);
      ReadCodingRest(d, u + [ch], rest[1..]);
    }
  }

  /** A Transfer-Encoding value sets the chunked flag exactly when it is "chunked", in any case, and spaces. */
  lemma ChunkedExact(c: Config, v: string)
    requires v != "" && AtValue(c.ps, v[0]) && c.pend == None && c.ps.hstate.TransferEncoding? && NoEol(v)
    ensures Legal(c.ps.lenient, v) ==> Read(c, v).Some?
    ensures Read(c, v).Some? ==>
      var d := Read(c, v).value;
      && Collects(d, v) && d.calls == c.calls
      && d.ps == c.ps.(state := Fields(InValue), hstate := d.ps.hstate, index := d.ps.index)
      && Finish(d.ps).flags == (if IsWord(v, CHUNKED) then c.ps.flags.(chunked := true) else c.ps.flags)
      && d.ps.hstate in {MatchingTransferEncodingChunked, TransferEncodingChunked, General}
  {
    hide Read, ValueChar;
    var ch := v[0];
    assert v == [ch] + v[1..];
    var d := ReadFirstValueByte(c, ch, v[1..]);
    WordSnoc("", ch, CHUNKED);
    assert "" + [ch] == [ch];
    LowerEmpty();
    hide IsPrefix, IsWord;
    ReadCodingRest(d, [ch], v[1..]);
  }
}
