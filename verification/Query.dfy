/** What the query scanner should find in a query string, and what it finds: the two agree exactly on the strings
    that do not end in a dangling delimiter. */
module Query {

  type Parameters = map<string, string>

  /** The index after the last `=`, or 0. */
  function AfterEq(s: string): (k: nat)
    ensures k <= |s|
  {
    if s == "" then 0 else if s[|s| - 1] == '=' then |s| else AfterEq(s[..|s| - 1])
  }

  /** The index after the last `&`, or 0. */
  function AfterAmp(s: string): (k: nat)
    ensures k <= |s|
  {
    if s == "" then 0 else if s[|s| - 1] == '&' then |s| else AfterAmp(s[..|s| - 1])
  }

  // The specification

  /** The pieces of a query between ampersands. */
  function Segments(s: string): (r: seq<string>)
    ensures r != []
  {
    if s == "" then [""]
    else
      var r := Segments(s[..|s| - 1]);
      var ch := s[|s| - 1];
      if ch == '&' then r + [""] else r[..|r| - 1] + [r[|r| - 1] + [ch]]
  }

  /** A segment is split at its last `=`. */
  function KeyOf(seg: string): string {
    if AfterEq(seg) == 0 then "" else seg[..AfterEq(seg) - 1]
  }

  function ValueOf(seg: string): string {
    seg[AfterEq(seg)..]
  }

  /** A segment with a key and a value is stored; the last one with its key wins. */
  function Put(m: Parameters, seg: string): Parameters {
    if KeyOf(seg) != "" && ValueOf(seg) != "" then m[KeyOf(seg) := ValueOf(seg)] else m
  }

  function PutAll(m: Parameters, segs: seq<string>): Parameters {
    if segs == [] then m else Put(PutAll(m, segs[..|segs| - 1]), segs[|segs| - 1])
  }

  // The scanner

  function Current(s: string): string {
    s[AfterAmp(s)..]
  }

  /** The segments that an ampersand has ended. */
  function Stored(m: Parameters, s: string): Parameters
    decreases |s|
  {
    if s == "" then m
    else
      var u := s[..|s| - 1];
      if s[|s| - 1] == '&' then Put(Stored(m, u), Current(u)) else Stored(m, u)
  }

  /** A query that ends in a delimiter which follows a key: the `&` of a segment with a key, or the `=` of a key. */
  predicate Dangling(s: string) {
    && s != ""
    && if s[|s| - 1] == '&' then KeyOf(Current(s[..|s| - 1])) != ""
       else s[|s| - 1] == '=' && KeyOf(Current(s)) != ""
  }

  /** What the scanner finds. With a dangling delimiter it stores the key of the last segment with a value that runs
      from a value start it still remembers to the end of the string, delimiters included. */
  function Scanned(m: Parameters, s: string): Parameters {
    if !Dangling(s) then Put(Stored(m, s), Current(s))
    else
      var u := s[..|s| - 1];
      var key := if s[|s| - 1] == '&' then KeyOf(Current(u)) else KeyOf(Current(s));
      Stored(m, s)[key := s[AfterEq(u)..]]
  }

  lemma {:induction false} SegmentsEnd(s: string)
    ensures Segments(s)[|Segments(s)| - 1] == Current(s)
    decreases |s|
  {
    if s != "" {
      var u := s[..|s| - 1];
      SegmentsEnd(u);
      if s[|s| - 1] != '&' {
        assert s == u + [s[|s| - 1]];
        assert Current(s) == Current(u) + [s[|s| - 1]];
      }
    }
  }

  lemma {:induction false} StoredAll(m: Parameters, s: string)
    ensures Stored(m, s) == PutAll(m, Segments(s)[..|Segments(s)| - 1])
    decreases |s|
  {
    var r := Segments(s);
    if s == "" {
      assert r[..|r| - 1] == [];
    } else {
      var u := s[..|s| - 1];
      var q := Segments(u);
      StoredAll(m, u);
      SegmentsEnd(u);
      assert if s[|s| - 1] == '&' then r[..|r| - 1] == q else r[..|r| - 1] == q[..|q| - 1];
      hide Put;
    }
  }

  lemma PutAllSegments(m: Parameters, s: string)
    ensures PutAll(m, Segments(s)) == Put(Stored(m, s), Current(s))
  {
    StoredAll(m, s);
    SegmentsEnd(s);
    hide Put, Segments;
  }

  /** The values the specification stores contain no delimiter. */
  predicate Clean(m: Parameters) {
    forall k | k in m :: '=' !in m[k] && '&' !in m[k]
  }

  lemma {:induction false} NoEqAfter(s: string)
    ensures '=' !in s[AfterEq(s)..]
    decreases |s|
  {
    if s != "" && s[|s| - 1] != '=' {
      var u := s[..|s| - 1];
      NoEqAfter(u);
      assert s[AfterEq(s)..] == u[AfterEq(u)..] + [s[|s| - 1]];
    }
  }

  lemma {:induction false} NoAmpAfter(s: string)
    ensures '&' !in s[AfterAmp(s)..]
    decreases |s|
  {
    if s != "" && s[|s| - 1] != '&' {
      var u := s[..|s| - 1];
      NoAmpAfter(u);
      assert s[AfterAmp(s)..] == u[AfterAmp(u)..] + [s[|s| - 1]];
    }
  }

  lemma PutClean(m: Parameters, s: string)
    requires Clean(m)
    ensures Clean(Put(m, Current(s)))
  {
    NoAmpAfter(s);
    NoEqAfter(Current(s));
    var v := ValueOf(Current(s));
    assert forall c | c in v :: c in Current(s);
  }

  lemma {:induction false} StoredClean(m: Parameters, s: string)
    requires Clean(m)
    ensures Clean(Stored(m, s))
    decreases |s|
  {
    if s != "" {
      var u := s[..|s| - 1];
      StoredClean(m, u);
      PutClean(Stored(m, u), u);
      hide Clean, Put;
    }
  }

  /** On a fresh Url the scanner meets the specification exactly when no delimiter dangles. */
  lemma ScannedExact(m: Parameters, s: string)
    requires Clean(m)
    ensures Scanned(m, s) == PutAll(m, Segments(s)) <==> !Dangling(s)
  {
    PutAllSegments(m, s);
    StoredClean(m, s);
    PutClean(Stored(m, s), s);
    if Dangling(s) {
      var u := s[..|s| - 1];
      var v := s[AfterEq(u)..];
      assert v[|v| - 1] == s[|s| - 1];
      var key := if s[|s| - 1] == '&' then KeyOf(Current(u)) else KeyOf(Current(s));
      assert Scanned(m, s)[key] == v;
    }
  }

  /** In "a=1&b=" the key b has no value, and is stored with one that holds a delimiter. */
  lemma DanglingValue()
    ensures Scanned(map[], "a=1&b=") == map["a" := "1", "b" := "1&b="] != PutAll(map[], Segments("a=1&b="))
  {
    var s := "a=1&b=";
    DanglingParts();
    assert s[..5] == "a=1&b" && s[2..] == "1&b=" && KeyOf("b=") == "b";
    assert Stored(map[], s) == map["a" := "1"];
    hide Stored, Current, KeyOf, AfterEq, Segments, PutAll;
    ScannedExact(map[], s);
    assert Scanned(map[], s) == map["a" := "1"]["b" := "1&b="];
  }

  lemma DanglingParts()
    ensures AfterEq("a=1&b") == 2 && AfterEq("b=") == 2 && Current("a=1&b=") == "b="
    ensures Stored(map[], "a=1&b=") == map["a" := "1"]
  {
    assert "a=1&b="[..5] == "a=1&b" && "a=1&b"[..4] == "a=1&" && "a=1&"[..3] == "a=1";
    assert "a=1"[..2] == "a=" && "a="[..1] == "a" && "a"[..0] == "";
    assert AfterEq("a=1") == 2 && AfterAmp("a=1") == 0 && AfterAmp("a=1&b=") == 4;
    assert KeyOf("a=1") == "a" && ValueOf("a=1") == "1" && Current("a=1") == "a=1";
    assert Stored(map[], "a=1") == map[];
    hide KeyOf, ValueOf, Current;
    assert Stored(map[], "a=1&") == map["a" := "1"];
  }

  /** In particular it does so on every string that does not end in a delimiter, whatever was stored before. */
  lemma NoDelimiterAtEnd(m: Parameters, s: string)
    requires s == "" || s[|s| - 1] !in {'=', '&'}
    ensures Scanned(m, s) == PutAll(m, Segments(s))
  {
    PutAllSegments(m, s);
  }

  // Joining pairs

  datatype Pair = Pair(key: string, value: string)

  predicate Plain(p: Pair) {
    p.key != "" && p.value != "" && '=' !in p.key && '&' !in p.key && '=' !in p.value && '&' !in p.value
  }

  function PairText(p: Pair): string {
    p.key + "=" + p.value
  }

  function Joined(pairs: seq<Pair>): string {
    if pairs == [] then ""
    else if |pairs| == 1 then PairText(pairs[0])
    else Joined(pairs[..|pairs| - 1]) + "&" + PairText(pairs[|pairs| - 1])
  }

  /** The map of a list of pairs; the last pair with a key wins. */
  function MapOf(pairs: seq<Pair>): Parameters {
    if pairs == [] then map[]
    else
      var p := pairs[|pairs| - 1];
      MapOf(pairs[..|pairs| - 1])[p.key := p.value]
  }

  lemma {:induction false} AfterEqOf(s: string, t: string)
    requires '=' !in t
    ensures AfterEq(s + t) == AfterEq(s)
    decreases |t|
  {
    if t == "" {
      assert s + t == s;
    } else {
      var u := t[..|t| - 1];
      assert (s + t)[..|s + t| - 1] == s + u;
      assert t[|t| - 1] in t && forall c | c in u :: c in t;
      AfterEqOf(s, u);
    }
  }

  lemma PutPair(m: Parameters, p: Pair)
    requires Plain(p)
    ensures Put(m, PairText(p)) == m[p.key := p.value] && '&' !in PairText(p) && PairText(p) != ""
  {
    var s := p.key + "=";
    AfterEqOf(s, p.value);
    assert AfterEq(s) == |s|;
    assert PairText(p)[..|s| - 1] == p.key;
    assert PairText(p)[|s|..] == p.value;
  }

  lemma {:induction false} OneSegment(seg: string)
    requires '&' !in seg
    ensures Segments(seg) == [seg]
    decreases |seg|
  {
    if seg != "" {
      var u := seg[..|seg| - 1];
      assert forall c | c in u :: c in seg;
      OneSegment(u);
      assert u + [seg[|seg| - 1]] == seg;
    }
  }

  lemma {:induction false} OneMoreSegment(s: string, seg: string)
    requires '&' !in seg
    ensures Segments(s + "&" + seg) == Segments(s) + [seg]
    decreases |seg|
  {
    var t := s + "&" + seg;
    if seg == "" {
      assert t[..|t| - 1] == s;
    } else {
      var u := seg[..|seg| - 1];
      assert t[..|t| - 1] == s + "&" + u;
      assert seg[|seg| - 1] in seg && forall c | c in u :: c in seg;
      OneMoreSegment(s, u);
      assert u + [seg[|seg| - 1]] == seg;
    }
  }

  lemma {:induction false} PutJoined(pairs: seq<Pair>)
    requires pairs != [] && forall p | p in pairs :: Plain(p)
    ensures PutAll(map[], Segments(Joined(pairs))) == MapOf(pairs)
    decreases |pairs|
  {
    hide Put, Plain, PairText, Segments;
    var front, p := pairs[..|pairs| - 1], pairs[|pairs| - 1];
    assert p in pairs && forall q | q in front :: q in pairs;
    PutPair(MapOf(front), p);
    if |pairs| == 1 {
      OneSegment(PairText(p));
      var r := [PairText(p)];
      assert r[..0] == [] && front == [];
      assert PutAll(map[], r) == Put(PutAll(map[], []), PairText(p));
    } else {
      PutJoined(front);
      OneMoreSegment(Joined(front), PairText(p));
      var r := Segments(Joined(front));
      assert (r + [PairText(p)])[..|r|] == r;
    }
  }

  lemma LastOfJoined(pairs: seq<Pair>)
    requires pairs != [] && forall p | p in pairs :: Plain(p)
    ensures Joined(pairs) != "" && Joined(pairs)[|Joined(pairs)| - 1] !in {'=', '&'}
  {
    var p := pairs[|pairs| - 1];
    assert p in pairs && p.value[|p.value| - 1] in p.value;
    assert Joined(pairs)[|Joined(pairs)| - 1] == p.value[|p.value| - 1];
  }

  /** Joining any list of pairs and scanning the result on a fresh Url gives the map of the list. */
  lemma JoinThenScan(pairs: seq<Pair>)
    requires forall p | p in pairs :: Plain(p)
    ensures Scanned(map[], Joined(pairs)) == MapOf(pairs)
  {
    if pairs != [] {
      LastOfJoined(pairs);
      NoDelimiterAtEnd(map[], Joined(pairs));
      PutJoined(pairs);
    }
  }
}
