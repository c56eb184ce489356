/** http_parser_parse_url and http_parse_host: the record of slices that they fill in step by step. */
module UrlRecord {
  import opened Characters
  import opened Http
  import opened UrlChar
  import opened Values
  import opened UrlGrammar
  import opened HostGrammar
  import opened Decompose

  datatype UrlField = UF_SCHEMA | UF_HOST | UF_PORT | UF_PATH | UF_QUERY | UF_FRAGMENT | UF_USERINFO

  type uint16 = x: int | 0 <= x < 0x1_0000

  datatype Slice = Slice(off: uint16, len: uint16)

  /** What a field of a decomposition holds. */
  function Component(d: Decomposition, f: UrlField): string {
    match f
    case UF_SCHEMA => d.url.schema
    case UF_HOST => FullName(d.host)
    case UF_PORT => d.host.port
    case UF_PATH => d.url.path
    case UF_QUERY => d.url.query
    case UF_FRAGMENT => d.url.fragment
    case UF_USERINFO => d.host.userinfo
  }

  function Base(l: UrlText): nat {
    |l.schema| + l.seps
  }

  /** Where a field of a decomposition starts. */
  function Offset(d: Decomposition, f: UrlField): nat {
    match f
    case UF_SCHEMA => 0
    case UF_USERINFO => Base(d.url) + InnerOffset(d.host, f)
    case UF_HOST => Base(d.url) + InnerOffset(d.host, f)
    case UF_PORT => Base(d.url) + InnerOffset(d.host, f)
    case UF_PATH => OuterOffset(d.url, f)
    case UF_QUERY => OuterOffset(d.url, f)
    case UF_FRAGMENT => OuterOffset(d.url, f)
  }

  /** A field is set when its component is not empty. */
  function FieldsOf(d: Decomposition): set<UrlField> {
    set f: UrlField | Component(d, f) != ""
  }

  // The outer loop

  function OuterComponent(l: UrlText, f: UrlField): string {
    match f
    case UF_SCHEMA => l.schema
    case UF_HOST => l.authority
    case UF_PATH => l.path
    case UF_QUERY => l.query
    case UF_FRAGMENT => l.fragment
    case UF_PORT => ""
    case UF_USERINFO => ""
  }

  function OuterOffset(l: UrlText, f: UrlField): nat {
    match f
    case UF_SCHEMA => 0
    case UF_HOST => Base(l)
    case UF_PATH => Base(l) + |l.authority|
    case UF_QUERY => Base(l) + |l.authority| + |l.path| + 1
    case UF_FRAGMENT => Base(l) + |l.authority| + |l.path| + (if l.question then 1 + |l.query| else 0) + l.hashes
    case UF_PORT => 0
    case UF_USERINFO => 0
  }

  /** The field that a state of the outer automaton belongs to; None for delimiters. */
  function FieldOf(s: UrlState): Option<UrlField> {
    match s
    case ReqSchema => Some(UF_SCHEMA)
    case ReqServer => Some(UF_HOST)
    case ReqServerWithAt => Some(UF_HOST)
    case ReqPath => Some(UF_PATH)
    case ReqQueryString => Some(UF_QUERY)
    case ReqFragment => Some(UF_FRAGMENT)
    case _ => None
  }

  /** The field that was read last. */
  function LastField(l: UrlText): Option<UrlField> {
    if l.fragment != "" then Some(UF_FRAGMENT)
    else if l.query != "" then Some(UF_QUERY)
    else if l.path != "" then Some(UF_PATH)
    else if l.authority != "" then Some(UF_HOST)
    else if l.schema != "" then Some(UF_SCHEMA)
    else None
  }

  lemma TextLength(l: UrlText)
    requires l.seps <= 3
    ensures |Text(l)| == Base(l) + |l.authority| + |l.path| + (if l.question then 1 + |l.query| else 0) + l.hashes + |l.fragment|
    ensures |Front(l)| == Base(l) + |l.authority|
  {
    hide Hashes;
  }

  /** One more byte of the URL either belongs to the field that was read last, or starts a new one, or is a delimiter. */
  lemma OuterStep(connect: bool, l: UrlText, ch: char, f: UrlField)
    requires Shape(connect, l) && ParseUrlChar(StateOf(connect, l), ch).Some?
    ensures
      var s := ParseUrlChar(StateOf(connect, l), ch).value;
      var m := Grow(l, s, ch);
      && (FieldOf(s) != Some(f) ==> OuterComponent(m, f) == OuterComponent(l, f))
      && (OuterComponent(l, f) != "" ==> OuterOffset(m, f) == OuterOffset(l, f))
      && (FieldOf(s) == None ==> LastField(m) == LastField(l))
      && (FieldOf(s) == Some(f) ==>
            && |OuterComponent(m, f)| == |OuterComponent(l, f)| + 1 && LastField(m) == Some(f)
            && (LastField(l) == Some(f) <==> OuterComponent(l, f) != "")
            && (OuterComponent(l, f) == "" ==> OuterOffset(m, f) == |Text(l)|))
  {
    hide ParseUrlChar, AllAlpha, UrlChars, GoodAuthority, IsUrlChar, IsAlpha, AuthorityChar, Text, Front;
    CharFacts(StateOf(connect, l), ch);
    TextLength(l);
  }

  /** What has been read stays readable, and what cannot be read never becomes readable. */
  lemma {:induction false} UrlScanDead(connect: bool, buf: string, p: nat)
    requires p <= |buf| && UrlScan(connect, buf[..p]) == None
    ensures UrlScan(connect, buf) == None
    decreases |buf| - p
  {
    hide StateOf, ParseUrlChar, Grow;
    if p < |buf| {
      assert buf[..p + 1][..p] == buf[..p];
      UrlScanDead(connect, buf, p + 1);
    } else {
      assert buf[..p] == buf;
    }
  }

  // The inner loop

  function InnerComponent(h: HostText, f: UrlField): string {
    match f
    case UF_HOST => FullName(h)
    case UF_PORT => h.port
    case UF_USERINFO => h.userinfo
    case _ => ""
  }

  function InnerOffset(h: HostText, f: UrlField): nat {
    match f
    case UF_HOST => if h.name == "" then 0 else |Lead(h)|
    case UF_PORT => |Lead(h)| + |FullName(h)| + (if h.closed then 1 else 0) + 1
    case _ => 0
  }

  /** The field that a state of the inner automaton belongs to. */
  function InnerFieldOf(s: HostState): Option<UrlField> {
    match s
    case Host => Some(UF_HOST)
    case HostV6 => Some(UF_HOST)
    case HostV6ZoneStart => Some(UF_HOST)
    case HostV6Zone => Some(UF_HOST)
    case Port => Some(UF_PORT)
    case Userinfo => Some(UF_USERINFO)
    case _ => None
  }

  /** A byte that starts a field anew: it takes the automaton to another state, which is not that of a zone. */
  predicate StartsField(s: HostState, t: HostState) {
    s != t && !t.HostV6ZoneStart? && !t.HostV6Zone?
  }

  /** What one more byte at `off` does to a field, when it belongs to t and `starts` says that it starts it anew. */
  predicate Advances(h: HostText, g: HostText, t: Option<UrlField>, starts: bool, off: nat, f: UrlField) {
    && |InnerComponent(h, f)| <= off
    && (t != Some(f) ==> InnerComponent(g, f) == InnerComponent(h, f))
    && (InnerComponent(h, f) != "" ==> InnerOffset(g, f) == InnerOffset(h, f))
    && (t == Some(f) ==>
          && |InnerComponent(g, f)| == |InnerComponent(h, f)| + 1
          && (starts <==> InnerComponent(h, f) == "")
          && (InnerComponent(h, f) == "" ==> InnerOffset(g, f) == off))
  }

  lemma InnerStep(found: bool, h: HostText, ch: char, f: UrlField)
    requires HostShape(found, h) && HostChar(HostStateOf(found, h), ch).Some?
    ensures
      var s := HostStateOf(found, h);
      var t := HostChar(s, ch).value;
      Advances(h, HostGrow(h, t, ch), InnerFieldOf(t), StartsField(s, t), |HostTextOf(h)|, f)
  {
    hide AllIn, IsUserinfoChar, IsAddressChar, IsHostChar, IsZoneChar, IsNum, HostChar, HostTextOf, Lead;
    HostCharFacts(HostStateOf(found, h), ch);
    HostTextLength(h);
    HostTextLength(HostGrow(h, HostChar(HostStateOf(found, h), ch).value, ch));
  }

  lemma HostTextLength(h: HostText)
    ensures |Lead(h)| == |h.userinfo| + (if h.at then 1 else 0) + (if h.open then 1 else 0)
    ensures |HostTextOf(h)| == |Lead(h)| + |FullName(h)| + (if h.closed then 1 else 0) + (if h.colon then 1 + |h.port| else 0)
  {
  }

  lemma {:induction false} HostScanDead(found: bool, t: string, p: nat)
    requires p <= |t| && HostScan(found, t[..p]) == None
    ensures HostScan(found, t) == None
    decreases |t| - p
  {
    hide HostStateOf, HostChar, HostGrow;
    if p < |t| {
      assert t[..p + 1][..p] == t[..p];
      HostScanDead(found, t, p + 1);
    } else {
      assert t[..p] == t;
    }
  }

  /** struct http_parser_url: which fields are set, where they are, and the port as a number. */
  class UrlSlices {
    var fieldSet: set<UrlField>
    var port: uint16
    var data: map<UrlField, Slice>

    ghost predicate Valid()
      reads this
    {
      forall f: UrlField :: f in data
    }

    /** http_parser_url_init */
    constructor ()
      ensures Valid() && fieldSet == {} && port == 0 && forall f: UrlField :: data[f] == Slice(0, 0)
    {
      fieldSet, port := {}, 0;
      var none := Slice(0, 0);
      data := map[UF_SCHEMA := none, UF_HOST := none, UF_PORT := none, UF_PATH := none, UF_QUERY := none,
                  UF_FRAGMENT := none, UF_USERINFO := none];
      new;
      forall f: UrlField ensures f in data && data[f] == Slice(0, 0) {
        match f case UF_SCHEMA => case _ =>
      }
    }

    ghost predicate At(f: UrlField, off: nat, len: nat)
      requires Valid()
      reads this
    {
      data[f].off == off && data[f].len == len
    }

    /** The record of the outer loop. */
    ghost predicate Outer(l: UrlText)
      requires Valid()
      reads this
    {
      forall f: UrlField ::
        && (f in fieldSet <==> OuterComponent(l, f) != "")
        && (f in fieldSet ==> At(f, OuterOffset(l, f), |OuterComponent(l, f)|))
    }

    /** The record of the inner loop: besides that of the outer one, what has been found in the authority. */
    ghost predicate Inner(l: UrlText, h: HostText)
      requires Valid()
      reads this
    {
      forall f: UrlField ::
        && (f in fieldSet <==> OuterComponent(l, f) != "" || InnerComponent(h, f) != "")
        && (f in fieldSet && f !in {UF_HOST, UF_PORT, UF_USERINFO} ==> At(f, OuterOffset(l, f), |OuterComponent(l, f)|))
        && (InnerComponent(h, f) != "" ==> At(f, Base(l) + InnerOffset(h, f), |InnerComponent(h, f)|))
    }

    /** Every set field is the slice of its component, and no other field is set. */
    ghost predicate Holds(d: Decomposition)
      requires Valid()
      reads this
    {
      && fieldSet == FieldsOf(d) && port == PortNumber(d.host)
      && forall f | f in fieldSet :: At(f, Offset(d, f), |Component(d, f)|)
    }

    /** The record within the inner loop, where the host is set from the start but has no length before its first byte. */
    ghost predicate Within(l: UrlText, h: HostText)
      requires Valid()
      reads this
    {
      Inner(l, h) && UF_HOST in fieldSet && (InnerComponent(h, UF_HOST) == "" ==> data[UF_HOST].len == 0)
    }

    method Extend(f: UrlField)
      requires Valid() && data[f].len < 0xFFFF
      modifies this`data
      ensures Valid() && data == old(data)[f := Slice(old(data)[f].off, old(data)[f].len + 1)]
    {
      data := data[f := Slice(data[f].off, data[f].len + 1)];
    }

    /** The loop of http_parser_parse_url. */
    method ScanFields(buf: string, connect: bool) returns (dead: bool, foundAt: bool)
      requires Valid() && |buf| <= 0xFFFF
      modifies this
      ensures Valid() && port == 0
      ensures dead <==> UrlScan(connect, buf) == None
      ensures !dead ==>
        var l := UrlScan(connect, buf).value;
        Outer(l) && foundAt == ('@' in l.authority)
    {
      hide UrlScan, StateOf, Shape, ParseUrlChar, Grow, Text, OuterComponent, OuterOffset, LastField;
      NothingRead(connect);
      StartFacts(connect);
      port, fieldSet := 0, {};
      dead, foundAt := false, false;
      var s := if connect then ReqServerStart else ReqSpacesBeforeUrl;
      var oldField: Option<UrlField> := None;
      var p := 0;
      ghost var l := NO_URL;
      while p < |buf|
        invariant 0 <= p <= |buf| && Valid() && port == 0 && !dead
        invariant UrlScan(connect, buf[..p]) == Some(l) && s == StateOf(connect, l) && oldField == LastField(l)
        invariant foundAt == ('@' in l.authority) && Outer(l)
      {
        var ch := buf[p];
        UrlScanSound(connect, buf[..p]);
        ScanNext(connect, buf, p, l);
        var next := ParseUrlChar(s, ch);
        if next == None {
          UrlScanDead(connect, buf, p + 1);
          dead := true;
          return;
        }
        s := next.value;
        ghost var m := Grow(l, s, ch);
        forall f: UrlField { OuterStep(connect, l, ch, f); }
        StepForward(connect, l, ch);
        FoundAt(connect, l, ch);
        if s.ReqServerWithAt? {
          foundAt := true;
        }
        var field := FieldOf(s);
        if field.Some? {
          if field == oldField {
            FieldFits(connect, buf, p, l, field.value);
            Extend(field.value);
          } else {
            data := data[field.value := Slice(p, 1)];
            fieldSet := fieldSet + {field.value};
            oldField := field;
          }
        }
        l := m;
        p := p + 1;
      }
      assert buf[..p] == buf;
    }
  
    /** A delimiter. */
    lemma Unrecorded(l: UrlText, h: HostText, g: HostText, starts: bool, off: nat)
      requires Valid() && Within(l, h)
      requires forall x: UrlField :: Advances(h, g, None, starts, off, x)
      ensures Within(l, g)
    {
      hide InnerOffset, OuterComponent, OuterOffset, FullName;
      assert Advances(h, g, None, starts, off, UF_HOST);
      forall x: UrlField
        ensures InnerComponent(g, x) == InnerComponent(h, x)
        ensures InnerComponent(h, x) != "" ==> InnerOffset(g, x) == InnerOffset(h, x)
      {
        assert Advances(h, g, None, starts, off, x);
      }
    }

    /** One byte of a field of the authority. */
    method Record(f: UrlField, starts: bool, p: uint16, ghost l: UrlText, ghost h: HostText, ghost g: HostText, ghost off: nat)
      requires Valid() && Within(l, h) && Base(l) + off == p < 0xFFFF && f in {UF_HOST, UF_PORT, UF_USERINFO}
      requires forall x: UrlField :: Advances(h, g, Some(f), starts, off, x)
      modifies this`data, this`fieldSet
      ensures Valid() && Within(l, g)
    {
      hide InnerOffset, OuterComponent, OuterOffset, FullName;
      assert Advances(h, g, Some(f), starts, off, f);
      assert Advances(h, g, Some(f), starts, off, UF_HOST);
      if starts {
        data := data[f := Slice(p, if f.UF_HOST? then data[UF_HOST].len else 0)];
        fieldSet := fieldSet + {f};
      }
      Extend(f);
      forall x: UrlField | x != f
        ensures InnerComponent(g, x) == InnerComponent(h, x)
        ensures InnerComponent(h, x) != "" ==> InnerOffset(g, x) == InnerOffset(h, x)
      {
        assert Advances(h, g, Some(f), starts, off, x);
      }
    }

    /** http_parse_host, on the authority that the outer loop has recorded. */
    method ParseHost(buf: string, foundAt: bool, ghost l: UrlText) returns (failed: bool)
      requires Valid() && |buf| <= 0xFFFF && Outer(l) && UF_HOST in fieldSet
      requires Base(l) + |l.authority| <= |buf| && buf[Base(l)..Base(l) + |l.authority|] == l.authority
      modifies this
      ensures Valid() && port == old(port)
      ensures
        var h := HostScan(foundAt, l.authority);
        failed <==> h == None || !HostMayEnd(HostStateOf(foundAt, h.value))
      ensures !failed ==> Inner(l, HostScan(foundAt, l.authority).value)
    {
      hide HostScan, HostStateOf, HostShape, HostChar, HostGrow, HostTextOf, InnerOffset, OuterOffset, Within, Inner, Outer,
           Advances, InnerFieldOf, StartsField;
      NoHostRead(foundAt);
      StartInner(foundAt, l);
      failed := false;
      var end := ClearHost(l);
      var s := if foundAt then UserinfoStart else HostStart;
      var p := data[UF_HOST].off;
      ghost var base := Base(l);
      ghost var a := l.authority;
      ghost var h := NO_HOST;
      assert p == base && end == base + |a|;
      while p < end
        invariant base <= p <= end && Valid() && !failed && port == old(port)
        invariant end == base + |a| <= |buf| && buf[base..end] == a
        invariant HostScan(foundAt, a[..p - base]) == Some(h) && s == HostStateOf(foundAt, h)
        invariant Within(l, h)
      {
        ghost var k := p - base;
        var ch := buf[p];
        assert ch == a[k];
        HostScanSound(foundAt, a[..k]);
        HostScanNext(foundAt, a, k, h);
        var next := HostChar(s, ch);
        if next == None {
          HostScanDead(foundAt, a, k + 1);
          failed := true;
          return;
        }
        ghost var g := HostGrow(h, next.value, ch);
        forall f: UrlField ensures Advances(h, g, InnerFieldOf(next.value), StartsField(s, next.value), k, f) {
          InnerStep(foundAt, h, ch, f);
        }
        HostForward(foundAt, h, ch);
        var field := InnerFieldOf(next.value);
        FieldsOfHost(next.value);
        if field == None {
          Unrecorded(l, h, g, StartsField(s, next.value), k);
        } else {
          Record(field.value, StartsField(s, next.value), p, l, h, g, k);
        }
        s := next.value;
        h := g;
        p := p + 1;
      }
      assert a[..p - base] == a;
      WithinInner(l, h);
      failed := !HostMayEnd(s);
    }

    /** The length of the host is cleared before its bytes are counted anew. */
    method ClearHost(ghost l: UrlText) returns (end: nat)
      requires Valid() && Outer(l) && UF_HOST in fieldSet
      modifies this`data
      ensures Valid() && Within(l, NO_HOST) && end == Base(l) + |l.authority| && data[UF_HOST].off == Base(l)
    {
      assert OuterOffset(l, UF_HOST) == Base(l);
      end := data[UF_HOST].off + data[UF_HOST].len;
      data := data[UF_HOST := data[UF_HOST].(len := 0)];
      assert forall f: UrlField :: InnerComponent(NO_HOST, f) == "";
    }

    lemma WithinInner(l: UrlText, h: HostText)
      requires Valid() && Within(l, h)
      ensures Inner(l, h)
    {
    }

    lemma FieldsOfHost(s: HostState)
      ensures InnerFieldOf(s) in {None, Some(UF_HOST), Some(UF_PORT), Some(UF_USERINFO)}
    {
    }
  
    lemma SetFields(l: UrlText)
      requires Valid() && Outer(l)
      ensures UF_SCHEMA in fieldSet <==> l.schema != ""
      ensures UF_HOST in fieldSet <==> l.authority != ""
    {
    }

    lemma NoInner(l: UrlText)
      requires Valid() && Outer(l) && l.authority == ""
      ensures Inner(l, NO_HOST)
    {
      assert forall f: UrlField :: InnerComponent(NO_HOST, f) == "";
    }

    /** The record of both loops is that of the decomposition. */
    lemma FoundFields(d: Decomposition)
      requires Valid() && Inner(d.url, d.host) && (d.url.authority != "" <==> d.host.name != "")
      requires d.host.name == "" ==> d.host == NO_HOST
      ensures fieldSet == FieldsOf(d) && forall f | f in fieldSet :: At(f, Offset(d, f), |Component(d, f)|)
    {
      forall f: UrlField ensures f in fieldSet <==> Component(d, f) != "" {
        assert Component(d, f) == if f in {UF_HOST, UF_PORT, UF_USERINFO} then InnerComponent(d.host, f) else OuterComponent(d.url, f);
      }
      forall f | f in fieldSet ensures At(f, Offset(d, f), |Component(d, f)|) {
        assert Component(d, f) != "";
      }
    }

    /** The conversion of the port field, which stops as soon as the number does not fit. */
    method PortValue(buf: string) returns (v: nat)
      requires Valid() && data[UF_PORT].off + data[UF_PORT].len <= |buf|
      requires AllDigits(buf[data[UF_PORT].off..data[UF_PORT].off + data[UF_PORT].len])
      ensures
        var n := DecValue(buf[data[UF_PORT].off..data[UF_PORT].off + data[UF_PORT].len]);
        if n <= MAX_PORT then v == n else v > MAX_PORT
    {
      var off := data[UF_PORT].off;
      var end := off + data[UF_PORT].len;
      ghost var digits := buf[off..end];
      v := 0;
      var p := off;
      assert digits[..0] == "";
      while p < end
        invariant off <= p <= end && AllDigits(digits[..p - off]) && v == DecValue(digits[..p - off]) <= MAX_PORT
      {
        assert buf[p] == digits[p - off];
        DecSnoc(digits[..p - off], buf[p]);
        assert digits[..p - off + 1] == digits[..p - off] + [buf[p]];
        v := v * 10 + Digit(buf[p]);
        p := p + 1;
        if v > MAX_PORT {
          DecGrows(digits, p - off);
          return;
        }
      }
      assert digits[..p - off] == digits;
    }

    /** The authority, if there is one. */
    method FindHost(buf: string, foundAt: bool, ghost l: UrlText) returns (failed: bool)
      requires Valid() && |buf| <= 0xFFFF && Outer(l) && foundAt == ('@' in l.authority)
      requires Text(l) == buf && l.seps <= 3 && (l.query != "" ==> l.question)
      modifies this
      ensures Valid() && port == old(port)
      ensures failed <==> HostOf(l.authority) == None
      ensures !failed ==>
        var h := HostOf(l.authority).value;
        && Inner(l, h) && (l.authority != "" <==> h.name != "") && (h.name == "" ==> h == NO_HOST)
        && HostTextOf(h) == l.authority && AllDigits(h.port) && (h.port != "" ==> h.colon)
    {
      hide HostScan, HostMayEnd, HostStateOf, Text, Outer, Inner;
      SetFields(l);
      NoHostRead(foundAt);
      failed := false;
      if UF_HOST in fieldSet {
        OuterSlice(l, UF_HOST);
        StartInner(foundAt, l);
        failed := ParseHost(buf, foundAt, l);
        if !failed {
          ghost var h := HostScan(foundAt, l.authority).value;
          HostScanSound(foundAt, l.authority);
          PortDigits(foundAt, h);
          NameFound(foundAt, h);
        }
      } else {
        NoInner(l);
      }
    }

    /** The port, if there is one. */
    method FindPort(buf: string, ghost d: Decomposition) returns (failed: bool)
      requires Valid() && port == 0 && fieldSet == FieldsOf(d) && forall f | f in fieldSet :: At(f, Offset(d, f), |Component(d, f)|)
      requires Text(d.url) == buf && |buf| <= 0xFFFF && AllDigits(d.host.port) && HostTextOf(d.host) == d.url.authority
      requires d.url.seps <= 3 && (d.url.query != "" ==> d.url.question)
      requires (d.host.name == "" ==> d.host == NO_HOST) && (d.host.port != "" ==> d.host.colon)
      modifies this`port
      ensures failed <==> PortNumber(d.host) > MAX_PORT
      ensures !failed ==> Holds(d)
    {
      hide Text, HostTextOf, AllDigits;
      PortOfNone(d.host);
      failed := false;
      if UF_PORT in fieldSet {
        assert Component(d, UF_PORT) == d.host.port;
        SliceContents(d, UF_PORT);
        var v := PortValue(buf);
        if v > 0xFFFF {
          failed := true;
        } else {
          port := v;
        }
      } else {
        assert Component(d, UF_PORT) == d.host.port;
      }
    }

    /** http_parser_parse_url: it fails exactly when the buffer has no decomposition, and otherwise records it. */
    method Parse(buf: string, connect: bool) returns (failed: bool)
      requires Valid() && |buf| <= 0xFFFF
      modifies this
      ensures Valid()
      ensures failed <==> Decomposed(connect, buf) == None
      ensures !failed ==> Holds(Decomposed(connect, buf).value)
    {
      hide UrlScan, PortNumber, Shape, Text, Outer, Inner, OnlyHostPort, HostOf, HostTextOf, Holds, AllDigits;
      var foundAt;
      failed, foundAt := ScanFields(buf, connect);
      if failed { return; }
      UrlScanSound(connect, buf);
      ghost var l := UrlScan(connect, buf).value;
      SetFields(l);
      ShapeFacts(connect, l);
      if UF_SCHEMA in fieldSet && UF_HOST !in fieldSet {
        failed := true;
        return;
      }
      failed := FindHost(buf, foundAt, l);
      if failed { return; }
      ghost var d := Decomposition(l, HostOf(l.authority).value);
      FoundFields(d);
      if connect { OnlyTheseFields(connect, d); }
      if connect && fieldSet != {UF_HOST, UF_PORT} {
        failed := true;
        return;
      }
      failed := FindPort(buf, d);
    }
  }

  lemma ShapeFacts(connect: bool, l: UrlText)
    requires Shape(connect, l)
    ensures l.seps <= 3 && (l.query != "" ==> l.question)
  {
  }

  lemma NameFound(found: bool, h: HostText)
    requires HostShape(found, h) && HostMayEnd(HostStateOf(found, h))
    ensures h.name != "" && (h.port != "" ==> h.colon)
  {
  }

  lemma PortOfNone(h: HostText)
    ensures h.port == "" ==> PortNumber(h) == 0
    ensures AllDigits(h.port) ==> PortNumber(h) == DecValue(h.port)
  {
  }

  lemma OnlyTheseFields(connect: bool, d: Decomposition)
    requires connect && Shape(connect, d.url)
    requires d.host.name == "" ==> d.host == NO_HOST
    ensures FieldsOf(d) == {UF_HOST, UF_PORT} <==> OnlyHostPort(d)
  {
    hide GoodAuthority, UrlChars, AllAlpha;
    if OnlyHostPort(d) {
      forall f: UrlField ensures f in FieldsOf(d) <==> f in {UF_HOST, UF_PORT} {
        match f case UF_SCHEMA => case _ =>
      }
    }
    assert UF_HOST in FieldsOf(d) <==> FullName(d.host) != "";
    assert UF_PORT in FieldsOf(d) <==> d.host.port != "";
    assert UF_USERINFO in FieldsOf(d) <==> d.host.userinfo != "";
    assert UF_PATH in FieldsOf(d) <==> d.url.path != "";
    assert UF_QUERY in FieldsOf(d) <==> d.url.query != "";
    assert UF_FRAGMENT in FieldsOf(d) <==> d.url.fragment != "";
  }

  /** The middle of three pieces. */
  lemma Middle(t: string, a: string, b: string, c: string)
    requires t == a + b + c
    ensures |a| + |b| <= |t| && t[|a|..|a| + |b|] == b
  {
  }

  function Separator(n: nat): (s: string)
    requires n <= 3
    ensures |s| == n
  {
    "://"[..n]
  }

  lemma FrontParts(l: UrlText)
    requires l.seps <= 3
    ensures Front(l) == l.schema + Separator(l.seps) + l.authority
  {
  }

  lemma SchemaSlice(l: UrlText)
    requires l.seps <= 3
    ensures |l.schema| <= |Text(l)| && Text(l)[0..|l.schema|] == l.schema
  {
    TextParts(l);
    FrontParts(l);
    hide Text, Front, Tail, Separator;
    var rest := Separator(l.seps) + l.authority + l.path + Tail(l);
    assert Text(l) == "" + l.schema + rest;
    Middle(Text(l), "", l.schema, rest);
  }

  lemma AuthoritySlice(l: UrlText)
    requires l.seps <= 3
    ensures Base(l) + |l.authority| <= |Text(l)| && Text(l)[Base(l)..Base(l) + |l.authority|] == l.authority
  {
    TextParts(l);
    FrontParts(l);
    hide Text, Front, Tail, Separator;
    var (first, rest) := (l.schema + Separator(l.seps), l.path + Tail(l));
    assert Text(l) == first + l.authority + rest;
    Middle(Text(l), first, l.authority, rest);
  }

  lemma PathSlice(l: UrlText)
    ensures |Front(l)| + |l.path| <= |Text(l)| && Text(l)[|Front(l)|..|Front(l)| + |l.path|] == l.path
  {
    TextParts(l);
    hide Text, Front, Tail;
    Middle(Text(l), Front(l), l.path, Tail(l));
  }

  lemma TailSlices(l: UrlText)
    ensures l.question ==> 1 + |l.query| <= |Tail(l)| && Tail(l)[1..1 + |l.query|] == l.query
    ensures |Tail(l)| == (if l.question then 1 + |l.query| else 0) + l.hashes + |l.fragment|
    ensures Tail(l)[|Tail(l)| - |l.fragment|..|Tail(l)|] == l.fragment
  {
    hide Hashes;
    var hashes := Hashes(l.hashes);
    if l.question {
      assert Tail(l) == "?" + l.query + (hashes + l.fragment);
      Middle(Tail(l), "?", l.query, hashes + l.fragment);
    }
    var first := (if l.question then "?" + l.query else "") + hashes;
    assert Tail(l) == first + l.fragment + "";
    Middle(Tail(l), first, l.fragment, "");
  }

  /** A slice of the tail is a slice of the text. */
  lemma InTail(l: UrlText, i: nat, j: nat)
    requires i <= j <= |Tail(l)|
    ensures
      var k := |Front(l)| + |l.path|;
      k + |Tail(l)| == |Text(l)| && Text(l)[k + i..k + j] == Tail(l)[i..j]
  {
    TextParts(l);
    hide Text, Front, Tail;
    var (k, t) := (|Front(l)| + |l.path|, Tail(l));
    assert Text(l)[k..k + |t|] == t;
    SliceOfSlice(Text(l), k, |t|, i, j - i);
  }

  lemma QuerySlice(l: UrlText)
    requires l.seps <= 3 && l.question
    ensures
      var off := Base(l) + |l.authority| + |l.path| + 1;
      off + |l.query| <= |Text(l)| && Text(l)[off..off + |l.query|] == l.query
  {
    TextLength(l);
    TailSlices(l);
    hide Text, Front, Tail;
    InTail(l, 1, 1 + |l.query|);
  }

  lemma FragmentSlice(l: UrlText)
    requires l.seps <= 3
    ensures
      var off := Base(l) + |l.authority| + |l.path| + (if l.question then 1 + |l.query| else 0) + l.hashes;
      off + |l.fragment| == |Text(l)| && Text(l)[off..off + |l.fragment|] == l.fragment
  {
    TextLength(l);
    TailSlices(l);
    hide Text, Front, Tail;
    InTail(l, |Tail(l)| - |l.fragment|, |Tail(l)|);
  }

  /** The slices of the outer loop hold their components. */
  lemma OuterSlice(l: UrlText, f: UrlField)
    requires l.seps <= 3 && (l.query != "" ==> l.question) && OuterComponent(l, f) != ""
    ensures
      var (off, len) := (OuterOffset(l, f), |OuterComponent(l, f)|);
      off + len <= |Text(l)| && Text(l)[off..off + len] == OuterComponent(l, f)
  {
    hide Text, Front, Tail;
    match f
    case UF_SCHEMA => SchemaSlice(l);
    case UF_HOST => AuthoritySlice(l);
    case UF_PATH => TextLength(l); PathSlice(l);
    case UF_QUERY => QuerySlice(l);
    case UF_FRAGMENT => FragmentSlice(l);
    case _ =>
  }

  /** The slices of the inner loop hold their components. */
  lemma InnerSlice(h: HostText, f: UrlField)
    requires InnerComponent(h, f) != "" && (f.UF_HOST? ==> h.name != "") && (h.port != "" ==> h.colon)
    ensures
      var (off, len) := (InnerOffset(h, f), |InnerComponent(h, f)|);
      off + len <= |HostTextOf(h)| && HostTextOf(h)[off..off + len] == InnerComponent(h, f)
  {
    hide HostTextOf, Lead, FullName, Trail;
    match f
    case UF_HOST => NameSlice(h);
    case UF_USERINFO => UserinfoSlice(h);
    case UF_PORT => PortSlice(h);
    case _ =>
  }

  lemma NameSlice(h: HostText)
    ensures |Lead(h)| + |FullName(h)| <= |HostTextOf(h)| && HostTextOf(h)[|Lead(h)|..|Lead(h)| + |FullName(h)|] == FullName(h)
  {
    hide Lead, FullName, Trail;
    Middle(HostTextOf(h), Lead(h), FullName(h), Trail(h));
  }

  lemma UserinfoSlice(h: HostText)
    ensures |h.userinfo| <= |HostTextOf(h)| && HostTextOf(h)[0..|h.userinfo|] == h.userinfo
  {
    hide FullName, Trail;
    var rest := (if h.at then "@" else "") + (if h.open then "[" else "") + FullName(h) + Trail(h);
    assert HostTextOf(h) == "" + h.userinfo + rest;
    Middle(HostTextOf(h), "", h.userinfo, rest);
  }

  lemma PortSlice(h: HostText)
    requires h.colon
    ensures
      var off := |Lead(h)| + |FullName(h)| + (if h.closed then 1 else 0) + 1;
      off + |h.port| <= |HostTextOf(h)| && HostTextOf(h)[off..off + |h.port|] == h.port
  {
    hide Lead, FullName;
    var first := Lead(h) + FullName(h) + (if h.closed then "]" else "") + ":";
    assert HostTextOf(h) == first + h.port + "";
    Middle(HostTextOf(h), first, h.port, "");
  }

  lemma SliceOfSlice(s: string, a: nat, n: nat, b: nat, m: nat)
    requires a + n <= |s| && b + m <= n
    ensures s[a..a + n][b..b + m] == s[a + b..a + b + m]
  {
    var t := s[a..a + n][b..b + m];
    var u := s[a + b..a + b + m];
    assert forall i | 0 <= i < m :: t[i] == u[i];
  }

  lemma HostSlices(d: Decomposition, f: UrlField)
    requires d.url.seps <= 3 && (d.url.query != "" ==> d.url.question) && d.url.authority == HostTextOf(d.host)
    requires InnerComponent(d.host, f) != "" && (f.UF_HOST? ==> d.host.name != "") && (d.host.port != "" ==> d.host.colon)
    ensures
      var (off, len) := (Base(d.url) + InnerOffset(d.host, f), |InnerComponent(d.host, f)|);
      off + len <= |Text(d.url)| && Text(d.url)[off..off + len] == InnerComponent(d.host, f)
  {
    hide Text, HostTextOf, InnerComponent, InnerOffset;
    InnerSlice(d.host, f);
    OuterSlice(d.url, UF_HOST);
    SliceOfSlice(Text(d.url), Base(d.url), |d.url.authority|, InnerOffset(d.host, f), |InnerComponent(d.host, f)|);
  }

  /** Every set field of a well-formed URL is a slice of it that holds its component. */
  lemma SliceContents(d: Decomposition, f: UrlField)
    requires d.url.seps <= 3 && (d.url.query != "" ==> d.url.question) && d.url.authority == HostTextOf(d.host)
    requires (d.host.name == "" ==> d.host == NO_HOST) && (d.host.port != "" ==> d.host.colon) && f in FieldsOf(d)
    ensures
      var (off, len) := (Offset(d, f), |Component(d, f)|);
      off + len <= |Text(d.url)| && Text(d.url)[off..off + len] == Component(d, f)
  {
    hide Text, HostTextOf;
    if f in {UF_HOST, UF_PORT, UF_USERINFO} {
      HostSlices(d, f);
    } else {
      OuterSlice(d.url, f);
    }
  }

  function Order(f: UrlField): nat {
    match f
    case UF_SCHEMA => 0
    case UF_USERINFO => 1
    case UF_HOST => 2
    case UF_PORT => 3
    case UF_PATH => 4
    case UF_QUERY => 5
    case UF_FRAGMENT => 6
  }

  predicate Precedes(f: UrlField, g: UrlField) {
    Order(f) < Order(g)
  }

  /** The set fields are disjoint slices in the order of the grammar. */
  lemma SlicesInOrder(connect: bool, d: Decomposition)
    requires WellFormed(connect, d)
    ensures forall f, g | f in FieldsOf(d) && g in FieldsOf(d) && Precedes(f, g) :: Offset(d, f) + |Component(d, f)| <= Offset(d, g)
  {
    hide GoodAuthority, UrlChars, AllAlpha, AllIn, HostTextOf, Lead, FullName;
    HostTextLength(d.host);
  }

  lemma StartInner(found: bool, l: UrlText)
    ensures HostScan(found, "") == Some(NO_HOST)
    ensures HostStateOf(found, NO_HOST) == if found then UserinfoStart else HostStart
    ensures forall f: UrlField :: InnerComponent(NO_HOST, f) == ""
    ensures InnerOffset(NO_HOST, UF_HOST) == 0 && OuterOffset(l, UF_HOST) == Base(l)
  {
  }

  lemma HostScanNext(found: bool, a: string, k: nat, h: HostText)
    requires k < |a| && HostScan(found, a[..k]) == Some(h)
    ensures
      HostScan(found, a[..k + 1])
   == match HostChar(HostStateOf(found, h), a[k])
      case None => None
      case Some(s) => Some(HostGrow(h, s, a[k]))
  {
    assert a[..k + 1][..k] == a[..k];
    hide HostStateOf, HostChar, HostGrow;
  }

  lemma StartFacts(connect: bool)
    ensures UrlScan(connect, "") == Some(NO_URL) && LastField(NO_URL) == None
    ensures StateOf(connect, NO_URL) == if connect then ReqServerStart else ReqSpacesBeforeUrl
    ensures forall f: UrlField :: OuterComponent(NO_URL, f) == ""
    ensures '@' !in NO_URL.authority
  {
  }

  lemma ScanNext(connect: bool, buf: string, p: nat, l: UrlText)
    requires p < |buf| && UrlScan(connect, buf[..p]) == Some(l)
    ensures
      UrlScan(connect, buf[..p + 1])
   == match ParseUrlChar(StateOf(connect, l), buf[p])
      case None => None
      case Some(s) => Some(Grow(l, s, buf[p]))
  {
    assert buf[..p + 1][..p] == buf[..p];
    hide StateOf, ParseUrlChar, Grow;
  }

  lemma FoundAt(connect: bool, l: UrlText, ch: char)
    requires ParseUrlChar(StateOf(connect, l), ch).Some?
    ensures
      var s := ParseUrlChar(StateOf(connect, l), ch).value;
      '@' in Grow(l, s, ch).authority <==> '@' in l.authority || s.ReqServerWithAt?
  {
    CharFacts(StateOf(connect, l), ch);
    hide ParseUrlChar, StateOf;
  }

  lemma FieldFits(connect: bool, buf: string, p: nat, l: UrlText, f: UrlField)
    requires p < |buf| <= 0xFFFF && Text(l) == buf[..p] && Shape(connect, l)
    ensures |OuterComponent(l, f)| <= p
  {
    TextLength(l);
    hide Text;
  }
}
