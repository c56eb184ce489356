/** The Url class: Url::Parse, Url::GetString and the query scanner Url::ParseQuery. */
module UrlObject {
  import opened Http
  import opened UrlGrammar
  import opened HostGrammar
  import opened Decompose
  import opened UrlRecord
  import opened Query

  class Url {
    var schema: string
    var host: string
    var port: uint16
    var path: string
    var query: string
    var fragment: string
    var userInfo: string
    var parameters: Parameters

    constructor ()
      ensures schema == host == path == query == fragment == userInfo == "" && port == 0 && parameters == map[]
    {
      schema, host, path, query, fragment, userInfo := "", "", "", "", "", "";
      port, parameters := 0, map[];
    }

    /** The parts of a URL, as Url::Parse stores them, and the query of the old map extended. */
    ghost predicate Stores(d: Decomposition, old_: Parameters)
      reads this
    {
      && schema == d.url.schema && host == FullName(d.host) && port == PortNumber(d.host) && path == d.url.path
      && query == d.url.query && fragment == d.url.fragment && userInfo == d.host.userinfo
      && parameters == Scanned(old_, d.url.query)
    }

    /** Url::Parse. The empty string makes std::string::at throw; a longer string is cut to its length modulo 65536; and a
        string without a decomposition leaves the object as it is. */
    method Parse(str: string) returns (outOfRange: bool)
      modifies this
      ensures outOfRange <==> str == ""
      ensures
        var found := Decomposed(false, str[..|str| % 0x1_0000]);
        if str == "" || found == None then
          && schema == old(schema) && host == old(host) && port == old(port) && path == old(path) && query == old(query)
          && fragment == old(fragment) && userInfo == old(userInfo) && parameters == old(parameters)
        else
          Stores(found.value, old(parameters))
    {
      hide Decomposed, Text, WellFormed, Component, Offset, FieldsOf, Scanned, FullName, PortNumber, UrlSlices.Holds, Stores;
      var parser := new UrlSlices();
      if str == "" {
        return true;
      }
      var data := str[..|str| % 0x1_0000];
      var failed := parser.Parse(data, false);
      if !failed {
        TakeFields(parser, data, Decomposed(false, data).value);
      }
      outOfRange := false;
    }

    /** The components of a decomposed URL become the fields of the object. */
    method TakeFields(parser: UrlSlices, data: string, ghost d: Decomposition)
      requires parser.Valid() && Decomposed(false, data) == Some(d) && parser.Holds(d)
      modifies this
      ensures Stores(d, old(parameters))
    {
      hide Decomposed, Text, WellFormed, Component, Offset, FieldsOf, Scanned, FullName;
      port := parser.port;
      schema := GetString(parser, data, d, UF_SCHEMA);
      host := GetString(parser, data, d, UF_HOST);
      path := GetString(parser, data, d, UF_PATH);
      query := GetString(parser, data, d, UF_QUERY);
      fragment := GetString(parser, data, d, UF_FRAGMENT);
      userInfo := GetString(parser, data, d, UF_USERINFO);
      ComponentNames(d);
      ParseQuery(query);
    }

    /** Url::GetString: the slice of a field, or the empty string if it is not set. */
    static method GetString(parser: UrlSlices, buffer: string, ghost d: Decomposition, f: UrlField) returns (str: string)
      requires parser.Valid() && Decomposed(false, buffer) == Some(d) && parser.Holds(d)
      ensures str == Component(d, f)
    {
      hide Decomposed, Text, WellFormed, Component, Offset;
      SlicesOf(buffer, d, f);
      str := "";
      if f in parser.fieldSet {
        str := buffer[parser.data[f].off..parser.data[f].off + parser.data[f].len];
      }
    }

    /** Url::ParseQuery: four iterators over the string. */
    method ParseQuery(str: string)
      modifies this`parameters
      ensures parameters == Scanned(old(parameters), str)
    {
      hide Iterators, Scanned, Stored;
      ghost var m := parameters;
      var keyBegin, keyEnd, valueBegin, valueEnd := 0, 0, 0, 0;
      var it := 0;
      AtStart(m, str);
      while it < |str|
        invariant 0 <= it <= |str| && parameters == Stored(m, str[..it])
        invariant Iterators(str, it, keyBegin, keyEnd, valueBegin)
      {
        StoredStep(m, str, it);
        IteratorsMove(str, it, keyBegin, keyEnd, valueBegin);
        if str[it] == '=' {
          keyEnd := it;
          if it + 1 != |str| {
            valueBegin := it + 1;
            valueEnd := valueBegin;
          }
        }
        if str[it] == '&' {
          valueEnd := it;
          PutSlices(parameters, str, it, keyBegin, keyEnd, valueBegin);
          if keyBegin != keyEnd && valueBegin != valueEnd {
            parameters := parameters[str[keyBegin..keyEnd] := str[valueBegin..valueEnd]];
          }
          if it + 1 != |str| {
            keyBegin := it + 1;
            keyEnd := keyBegin;
          }
        }
        it := it + 1;
      }
      valueEnd := |str|;
      assert str[..it] == str;
      ScanEnds(m, str, keyBegin, keyEnd, valueBegin);
      if keyBegin != keyEnd && valueBegin != valueEnd {
        parameters := parameters[str[keyBegin..keyEnd] := str[valueBegin..valueEnd]];
      }
    }
  }

  lemma SlicesOf(buffer: string, d: Decomposition, f: UrlField)
    requires Decomposed(false, buffer) == Some(d)
    ensures f in FieldsOf(d) <==> Component(d, f) != ""
    ensures f in FieldsOf(d) ==>
      Offset(d, f) + |Component(d, f)| <= |buffer| && buffer[Offset(d, f)..Offset(d, f) + |Component(d, f)|] == Component(d, f)
  {
    hide Decomposed, Text, GoodAuthority, UrlChars, AllAlpha, HostTextOf, AllIn;
    UrlExact(false, buffer, d);
    if f in FieldsOf(d) { SliceContents(d, f); }
  }

  lemma ComponentNames(d: Decomposition)
    ensures Component(d, UF_SCHEMA) == d.url.schema && Component(d, UF_HOST) == FullName(d.host)
    ensures Component(d, UF_PATH) == d.url.path && Component(d, UF_QUERY) == d.url.query
    ensures Component(d, UF_FRAGMENT) == d.url.fragment && Component(d, UF_USERINFO) == d.host.userinfo
  {
  }

  /** Where the key of a segment that starts at k ends, if the last `=` before the end of s is at e - 1. */
  function KeyEnd(k: nat, e: nat): nat {
    if e > k then e - 1 else k
  }

  /** Where the iterators of ParseQuery stand after `it` bytes: key_begin after the last ampersand, key_end at the last
      `=` of the segment, value_begin after the last `=` of the string. After a delimiter at the very end they stay. */
  ghost predicate Iterators(str: string, it: nat, keyBegin: nat, keyEnd: nat, valueBegin: nat)
    requires it <= |str|
  {
    var s := str[..it];
    if it == |str| && it > 0 && str[it - 1] == '&' then
      var u := str[..it - 1];
      keyBegin == AfterAmp(u) && keyEnd == KeyEnd(AfterAmp(u), AfterEq(u)) && valueBegin == AfterEq(u)
    else if it == |str| && it > 0 && str[it - 1] == '=' then
      keyBegin == AfterAmp(s) && keyEnd == it - 1 && valueBegin == AfterEq(str[..it - 1])
    else
      keyBegin == AfterAmp(s) && keyEnd == KeyEnd(AfterAmp(s), AfterEq(s)) && valueBegin == AfterEq(s)
  }

  /** The last `=` of the current segment, seen from the whole string. */
  lemma {:induction false} CurrentSegment(s: string)
    ensures AfterEq(Current(s)) == if AfterEq(s) > AfterAmp(s) then AfterEq(s) - AfterAmp(s) else 0
    decreases |s|
  {
    if s != "" {
      var u := s[..|s| - 1];
      CurrentSegment(u);
      if s[|s| - 1] != '&' {
        assert Current(s) == Current(u) + [s[|s| - 1]];
        assert Current(s)[..|Current(s)| - 1] == Current(u);
      }
    }
  }

  /** Key and value of the current segment as slices. */
  lemma SegmentSlices(s: string)
    ensures
      var (k, e) := (AfterAmp(s), AfterEq(s));
      && k <= KeyEnd(k, e) <= |s| && KeyOf(Current(s)) == s[k..KeyEnd(k, e)]
      && (KeyOf(Current(s)) != "" <==> KeyEnd(k, e) != k)
      && (e > k ==> ValueOf(Current(s)) == s[e..])
  {
    hide AfterEq, AfterAmp, Current, KeyOf, ValueOf;
    var cur := Current(s);
    CurrentSegment(s);
    CurrentIs(s);
    KeyAndValue(cur);
    SlicesOfSlice(s, cur, KeyOf(cur), ValueOf(cur), AfterAmp(s), AfterEq(s), AfterEq(cur));
  }

  lemma SlicesOfSlice(s: string, cur: string, key: string, value: string, k: nat, e: nat, a: nat)
    requires k <= |s| && e <= |s| && cur == s[k..] && a == if e > k then e - k else 0
    requires if a == 0 then key == "" else key == cur[..a - 1] && value == cur[a..]
    ensures k <= KeyEnd(k, e) <= |s| && key == s[k..KeyEnd(k, e)]
    ensures key != "" <==> KeyEnd(k, e) != k
    ensures e > k ==> value == s[e..]
  {
    if e > k {
      assert cur[..a - 1] == s[k..e - 1];
      assert cur[a..] == s[e..];
    } else {
      assert s[k..k] == "";
    }
  }

  lemma CurrentIs(s: string)
    ensures Current(s) == s[AfterAmp(s)..]
  {
  }

  lemma KeyAndValue(seg: string)
    ensures AfterEq(seg) == 0 ==> KeyOf(seg) == ""
    ensures AfterEq(seg) > 0 ==> KeyOf(seg) == seg[..AfterEq(seg) - 1] && ValueOf(seg) == seg[AfterEq(seg)..]
    ensures KeyOf(seg) != "" <==> AfterEq(seg) > 1
  {
    hide AfterEq;
  }

  lemma AtStart(m: Parameters, str: string)
    ensures Stored(m, str[..0]) == m && Iterators(str, 0, 0, 0, 0)
  {
  }

  lemma StoredStep(m: Parameters, str: string, it: nat)
    requires it < |str|
    ensures
      var s := str[..it];
      Stored(m, str[..it + 1]) == if str[it] == '&' then Put(Stored(m, s), Current(s)) else Stored(m, s)
  {
    assert str[..it + 1][..it] == str[..it];
    hide Put;
  }

  /** How the iterators move over one byte. */
  lemma IteratorsMove(str: string, it: nat, keyBegin: nat, keyEnd: nat, valueBegin: nat)
    requires it < |str| && Iterators(str, it, keyBegin, keyEnd, valueBegin)
    ensures
      var more := it + 1 != |str|;
      Iterators(str, it + 1,
                if str[it] == '&' && more then it + 1 else keyBegin,
                if str[it] == '=' then it else if str[it] == '&' && more then it + 1 else keyEnd,
                if str[it] == '=' && more then it + 1 else valueBegin)
    ensures keyBegin <= it && keyEnd <= it && valueBegin <= it
  {
    assert str[..it + 1][..it] == str[..it];
  }

  /** An ampersand stores the current segment. */
  lemma PutSlices(m: Parameters, str: string, it: nat, keyBegin: nat, keyEnd: nat, valueBegin: nat)
    requires it < |str| && Iterators(str, it, keyBegin, keyEnd, valueBegin)
    ensures keyBegin <= keyEnd <= |str| && valueBegin <= it
    ensures
      Put(m, Current(str[..it]))
   == if keyBegin != keyEnd && valueBegin != it then m[str[keyBegin..keyEnd] := str[valueBegin..it]] else m
  {
    var s := str[..it];
    SegmentSlices(s);
    hide KeyOf, ValueOf, Current;
    if keyBegin != keyEnd {
      assert s[keyBegin..keyEnd] == str[keyBegin..keyEnd];
      assert s[valueBegin..] == str[valueBegin..it];
    }
  }

  /** What is stored at the end of the string. */
  lemma ScanEnds(m: Parameters, str: string, keyBegin: nat, keyEnd: nat, valueBegin: nat)
    requires Iterators(str, |str|, keyBegin, keyEnd, valueBegin)
    ensures keyBegin <= keyEnd <= |str| && valueBegin <= |str|
    ensures Scanned(m, str) == StoreLast(m, str, keyBegin, keyEnd, valueBegin)
  {
    hide Scanned, KeyOf, ValueOf, Current, Stored;
    assert str[..|str|] == str;
    if str != "" && str[|str| - 1] == '&' {
      EndsWithAmp(m, str);
    } else if str != "" && str[|str| - 1] == '=' {
      EndsWithEq(m, str);
    } else {
      EndsPlain(m, str);
    }
  }

  function StoreLast(m: Parameters, str: string, keyBegin: int, keyEnd: int, valueBegin: int): Parameters {
    if 0 <= keyBegin < keyEnd <= |str| && 0 <= valueBegin < |str| then
      Stored(m, str)[str[keyBegin..keyEnd] := str[valueBegin..]]
    else Stored(m, str)
  }

  lemma EndsPlain(m: Parameters, str: string)
    requires str == "" || str[|str| - 1] !in {'=', '&'}
    ensures
      var (k, e) := (AfterAmp(str), AfterEq(str));
      k <= KeyEnd(k, e) && Scanned(m, str) == StoreLast(m, str, k, KeyEnd(k, e), e)
  {
    SegmentSlices(str);
    hide AfterEq, AfterAmp, KeyOf, ValueOf, Current, Stored;
  }

  lemma EndsWithEq(m: Parameters, str: string)
    requires str != "" && str[|str| - 1] == '='
    ensures
      var k := AfterAmp(str);
      k <= |str| - 1 && Scanned(m, str) == StoreLast(m, str, k, |str| - 1, AfterEq(str[..|str| - 1]))
  {
    hide AfterEq, AfterAmp, KeyOf, ValueOf, Current, Stored, Scanned;
    SegmentSlices(str);
    Ends(str);
    assert KeyEnd(AfterAmp(str), AfterEq(str)) == |str| - 1;
    EmptyValue(m, str);
  }

  lemma EmptyValue(m: Parameters, str: string)
    requires str != "" && str[|str| - 1] == '='
    ensures
      var key := KeyOf(Current(str));
      Scanned(m, str) == if key == "" then Stored(m, str) else Stored(m, str)[key := str[AfterEq(str[..|str| - 1])..]]
  {
    hide KeyOf, Current, Stored, AfterEq, ValueOf;
  }

  lemma EndsWithAmp(m: Parameters, str: string)
    requires str != "" && str[|str| - 1] == '&'
    ensures
      var u := str[..|str| - 1];
      var (k, e) := (AfterAmp(u), AfterEq(u));
      k <= KeyEnd(k, e) <= |u| && Scanned(m, str) == StoreLast(m, str, k, KeyEnd(k, e), e)
  {
    var u := str[..|str| - 1];
    SegmentSlices(u);
    EmptySegment(str);
    var (k, e) := (AfterAmp(u), AfterEq(u));
    hide AfterEq, AfterAmp, KeyOf, ValueOf, Current, Stored;
    assert u[k..KeyEnd(k, e)] == str[k..KeyEnd(k, e)];
  }

  lemma Ends(str: string)
    ensures str != "" && str[|str| - 1] == '=' ==> AfterEq(str) == |str| && AfterAmp(str) < |str|
  {
  }

  lemma EmptySegment(str: string)
    requires str != "" && str[|str| - 1] == '&'
    ensures KeyOf(Current(str)) == ""
  {
    assert Current(str) == "";
  }
}
