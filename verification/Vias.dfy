/** Via header values: reading a comma separated list and printing it (sip/header.go,
    section 7.3.1 of RFC 3261). */
module Vias {
  import opened Searching
  import opened Wrappers

  datatype ViaValue = ViaValue(sentProtocol: string, sentBy: string, rawParameter: string)

  // Trimming

  /** Blanks, and `x` besides. */
  predicate Cut(c: char, x: char) {
    c == ' ' || c == '\t' || c == '\r' || c == '\n' || c == x
  }

  predicate Trimmed(s: string, x: char) {
    s != "" ==> !Cut(s[0], x) && !Cut(s[|s|-1], x)
  }

  function TrimLeft(s: string, x: char): (t: string)
    ensures |t| <= |s| && t == s[|s|-|t|..] && (t != "" ==> !Cut(t[0], x))
  {
    if s != "" && Cut(s[0], x) then TrimLeft(s[1..], x) else s
  }

  function TrimRight(s: string, x: char): (t: string)
    ensures |t| <= |s| && t == s[..|t|] && (t != "" ==> !Cut(t[|t|-1], x))
  {
    if s != "" && Cut(s[|s|-1], x) then TrimRight(s[..|s|-1], x) else s
  }

  function Trim(s: string, x: char): (t: string)
    ensures |t| <= |s| && Trimmed(t, x)
    ensures Trimmed(s, x) ==> t == s
  {
    TrimRight(TrimLeft(s, x), x)
  }

  // Reading

  /** Where the sent-by part ends. */
  function SentByEnd(s: string): (i: nat)
    ensures i <= |s| && forall k :: 0 <= k < i ==> s[k] != ';' && s[k] != ','
    ensures i < |s| ==> s[i] == ';' || s[i] == ','
  {
    if s == "" || s[0] == ';' || s[0] == ',' then 0 else 1 + SentByEnd(s[1..])
  }

  /** Where the first comma outside quotes is, or the length. */
  function ParametersEnd(s: string, quoted: bool): (i: nat)
    ensures i <= |s|
  {
    if s == "" || (s[0] == ',' && !quoted) then 0
    else 1 + ParametersEnd(s[1..], if s[0] == '"' then !quoted else quoted)
  }

  /** Whether quotes are open at the end. */
  function QuotedAfter(s: string, quoted: bool): bool {
    if s == "" then quoted else QuotedAfter(s[1..], if s[0] == '"' then !quoted else quoted)
  }

  /** The protocol in front of the first blank, and what follows; without a blank the
      program reads behind the end of an array. */
  function SplitProtocol(s: string): Option<(string, string)> {
    var t := Trim(s, ' ');
    var i := Find(t, ' ');
    if i == |t| then None else Some((Trim(t[..i], ' '), Trim(t[i+1..], ' ')))
  }

  /** The sent-by part, the parameters, and what follows the value. */
  function ParseRest(r: string): (string, string, string) {
    var i := SentByEnd(r);
    var k := i + ParametersEnd(r[i..], false);
    (Trim(r[..i], ' '), Trim(r[i..k], ';'), Trim(r[k..], ','))
  }

  /** The first value of a list and what follows it. */
  function ParseFirst(s: string): Option<(ViaValue, string)> {
    match SplitProtocol(s)
    case None => None
    case Some((protocol, r)) =>
      var (sentBy, parameter, trail) := ParseRest(r);
      Some((ViaValue(protocol, sentBy, parameter), trail))
  }

  /** All values of a list, topmost first; None when an index is out of range. */
  function ParseList(s: string): Option<seq<ViaValue>>
    decreases |s|
  {
    if s == "" then Some([])
    else
      match ParseFirst(s)
      case None => None
      case Some((via, trail)) =>
        match ParseList(trail)
        case None => None
        case Some(rest) => Some([via] + rest)
  }

  // Printing

  function Text(v: ViaValue): string {
    v.sentProtocol + " " + v.sentBy + ParameterText(v)
  }

  function ParameterText(v: ViaValue): string {
    if v.rawParameter != "" then ";" + v.rawParameter else ""
  }

  function Join(vs: seq<ViaValue>): string {
    if vs == [] then "" else if |vs| == 1 then Text(vs[0]) else Text(vs[0]) + ", " + Join(vs[1..])
  }

  /** What the parser can produce: no part holds what ends it, or what is trimmed. */
  predicate Readable(v: ViaValue) {
    && v.sentProtocol != "" && ' ' !in v.sentProtocol && Trimmed(v.sentProtocol, ' ')
    && Trimmed(v.sentBy, ' ') && ';' !in v.sentBy && ',' !in v.sentBy
    && Trimmed(v.rawParameter, ';') && ParametersEnd(v.rawParameter, false) == |v.rawParameter|
  }

  predicate Blank(v: ViaValue) {
    v.sentBy == "" && v.rawParameter == ""
  }

  /** No comma starts or ends the value. */
  predicate CommaFree(v: ViaValue) {
    v.sentProtocol != "" && v.sentProtocol[0] != ',' && (v.rawParameter != "" ==> v.rawParameter[|v.rawParameter|-1] != ',')
  }

  /** Values that a printed list keeps apart: quotes are closed before the next value, the
      last value does not end in a blank, and no value but the first starts or ends in a
      comma. */
  predicate Listable(vs: seq<ViaValue>, first: bool) {
    vs != [] ==>
      && Readable(vs[0]) && (first || CommaFree(vs[0]))
      && (if |vs| == 1 then !Blank(vs[0]) else !QuotedAfter(vs[0].rawParameter, false))
      && Listable(vs[1..], false)
  }

  // Reading what was printed

  lemma {:induction false} SentByEndIs(s: string, i: nat)
    requires i <= |s| && ';' !in s[..i] && ',' !in s[..i] && (i < |s| ==> s[i] == ';' || s[i] == ',')
    ensures SentByEnd(s) == i
  {
  }

  lemma {:induction false} ParametersThrough(s: string, t: string, quoted: bool)
    requires ParametersEnd(s, quoted) == |s|
    ensures ParametersEnd(s + t, quoted) == |s| + ParametersEnd(t, QuotedAfter(s, quoted))
  {
    if s == "" {
      assert s + t == t;
    } else {
      assert (s + t)[1..] == s[1..] + t;
      ParametersThrough(s[1..], t, if s[0] == '"' then !quoted else quoted);
    }
  }

  lemma TrimLeftCut(c: char, s: string, x: char)
    requires Cut(c, x) && Trimmed(s, x)
    ensures Trim([c] + s, x) == s
  {
    var t := [c] + s;
    assert t[0] == c && t[1..] == s;
    SkipOne(t, x);
    assert Trim(t, x) == Trim(s, x);
  }

  lemma SkipOne(t: string, x: char)
    requires t != "" && Cut(t[0], x)
    ensures TrimLeft(t, x) == TrimLeft(t[1..], x)
  {
  }

  /** A text between separators: it is not empty, and blanks and commas do not end it. */
  predicate Tight(s: string) {
    s != "" && Trimmed(s, ',')
  }

  lemma TextEnds(v: ViaValue)
    requires Readable(v)
    ensures Text(v) != "" && Text(v)[0] == v.sentProtocol[0]
    ensures v.rawParameter != "" ==> Text(v)[|Text(v)|-1] == v.rawParameter[|v.rawParameter|-1]
    ensures v.rawParameter == "" && v.sentBy != "" ==> Text(v)[|Text(v)|-1] == v.sentBy[|v.sentBy|-1]
  {
  }

  lemma {:induction false} LastNotComma(p: string, quoted: bool)
    requires p != "" && ParametersEnd(p, quoted) == |p| && !QuotedAfter(p, quoted)
    ensures p[|p|-1] != ','
  {
    if |p| > 1 {
      assert p[1..][|p[1..]|-1] == p[|p|-1];
      LastNotComma(p[1..], if p[0] == '"' then !quoted else quoted);
    } else {
      assert p[1..] == "";
    }
  }

  lemma {:induction false} JoinTight(vs: seq<ViaValue>)
    requires vs != [] && Listable(vs, false)
    ensures Tight(Join(vs))
  {
    hide Text, ParametersEnd, QuotedAfter;
    TextEnds(vs[0]);
    if |vs| == 1 {
      assert vs[0].sentBy != "" ==> vs[0].sentBy[|vs[0].sentBy|-1] in vs[0].sentBy;
    } else {
      JoinTight(vs[1..]);
      var j := Join(vs);
      assert j[0] == Text(vs[0])[0];
      assert j[|j|-1] == Join(vs[1..])[|Join(vs[1..])|-1];
    }
  }

  lemma ProtocolSplit(protocol: string, r: string)
    requires protocol != "" && ' ' !in protocol && Trimmed(protocol, ' ') && r != "" && Trimmed(r, ' ')
    ensures SplitProtocol(protocol + (" " + r)) == Some((protocol, r))
  {
    hide Find, Trim;
    var s := protocol + (" " + r);
    assert s[..|protocol|] == protocol && s[|protocol|+1..] == r;
    assert s[0] == protocol[0] && s[|s|-1] == r[|r|-1];
    FindIs(s, ' ', |protocol|);
  }

  /** Where the three parts of the rest of a value are. */
  lemma RestSplit(sentBy: string, p: string, tail: string)
    requires ';' !in sentBy && ',' !in sentBy && ParametersEnd(p + tail, false) == |p|
    requires p + tail == "" || (p + tail)[0] == ';' || (p + tail)[0] == ','
    ensures ParseRest(sentBy + (p + tail)) == (Trim(sentBy, ' '), Trim(p, ';'), Trim(tail, ','))
  {
    hide Trim, SentByEnd, ParametersEnd;
    var r := sentBy + (p + tail);
    assert r[..|sentBy|] == sentBy && r[|sentBy|..] == p + tail;
    SentByEndIs(r, |sentBy|);
    assert r[|sentBy|..|sentBy|+|p|] == p && r[|sentBy|+|p|..] == tail;
  }

  lemma FirstParsed(v: ViaValue, rest: string)
    requires Readable(v)
    requires if rest == "" then !Blank(v) else Tight(rest) && !QuotedAfter(v.rawParameter, false)
    ensures ParseFirst(Text(v) + Tail(rest)) == Some((v, rest))
  {
    TailTrimmed(rest);
    RestTrimmed(v, rest);
    ParameterScanned(v, Tail(rest));
    ParameterStart(v, Tail(rest));
    TextRegrouped(v, Tail(rest));
    hide Trim, SplitProtocol, ParametersEnd, QuotedAfter, ParameterText, Tight, Trimmed, ParseRest, Text, Tail, Readable;
    RestSplit(v.sentBy, ParameterText(v), Tail(rest));
    ProtocolSplit(v.sentProtocol, v.sentBy + (ParameterText(v) + Tail(rest)));
  }

  /** What follows a value of a printed list. */
  function Tail(rest: string): string {
    if rest == "" then "" else ", " + rest
  }

  lemma TextRegrouped(v: ViaValue, tail: string)
    requires Readable(v)
    ensures Text(v) + tail == v.sentProtocol + (" " + (v.sentBy + (ParameterText(v) + tail)))
    ensures v.sentProtocol != "" && ' ' !in v.sentProtocol && Trimmed(v.sentProtocol, ' ')
    ensures ';' !in v.sentBy && ',' !in v.sentBy && Trim(v.sentBy, ' ') == v.sentBy
  {
  }

  lemma ParameterStart(v: ViaValue, tail: string)
    requires tail == "" || tail[0] == ','
    ensures var q := ParameterText(v) + tail; q == "" || q[0] == ';' || q[0] == ','
  {
  }

  lemma RestTrimmed(v: ViaValue, rest: string)
    requires Readable(v) && if rest == "" then !Blank(v) else Tight(rest)
    ensures var r := v.sentBy + (ParameterText(v) + Tail(rest)); r != "" && Trimmed(r, ' ')
  {
  }

  lemma ParameterScanned(v: ViaValue, tail: string)
    requires Readable(v) && (tail == "" || (tail[0] == ',' && !QuotedAfter(v.rawParameter, false)))
    ensures ParametersEnd(ParameterText(v) + tail, false) == |ParameterText(v)|
    ensures Trim(ParameterText(v), ';') == v.rawParameter
  {
    hide Trim, TrimLeft, TrimRight;
    var p := v.rawParameter;
    assert tail == "" || tail[0] == ',' ==> ParametersEnd(tail, false) == 0;
    if p == "" {
      assert "" + tail == tail;
    } else {
      var s := [';'] + p;
      assert s[1..] == p && ParameterText(v) == s;
      hide Readable;
      ParametersOne(s, false);
      if tail == "" {
        assert s + tail == s;
      } else {
        ParametersThrough(s, tail, false);
      }
      TrimLeftCut(';', p, ';');
    }
  }

  lemma ParametersOne(s: string, quoted: bool)
    requires s != "" && s[0] != ',' && s[0] != '"'
    ensures ParametersEnd(s, quoted) == 1 + ParametersEnd(s[1..], quoted)
    ensures QuotedAfter(s, quoted) == QuotedAfter(s[1..], quoted)
  {
  }

  lemma TailTrimmed(rest: string)
    requires rest == "" || Tight(rest)
    ensures Trim(Tail(rest), ',') == rest
    ensures Tail(rest) == "" || Tail(rest)[0] == ','
  {
    if rest != "" {
      assert (", " + rest)[1..] == " " + rest && (" " + rest)[1..] == rest;
      assert TrimLeft(rest, ',') == rest;
      assert TrimLeft(", " + rest, ',') == rest;
    }
  }

  /** A printed list is read back, its first value topmost. */
  lemma {:induction false} JoinParsed(vs: seq<ViaValue>, first: bool)
    requires Listable(vs, first)
    ensures ParseList(Join(vs)) == Some(vs)
  {
    hide Text, ParseFirst, ParametersEnd, QuotedAfter, Readable, Blank, CommaFree;
    if vs != [] {
      TextEnds(vs[0]);
      assert vs == [vs[0]] + vs[1..];
      if |vs| == 1 {
        assert Text(vs[0]) + "" == Text(vs[0]);
        FirstParsed(vs[0], "");
      } else {
        JoinTight(vs[1..]);
        FirstParsed(vs[0], Join(vs[1..]));
        assert Text(vs[0]) + ", " + Join(vs[1..]) == Text(vs[0]) + (", " + Join(vs[1..]));
        JoinParsed(vs[1..], false);
      }
    }
  }

  // What was read can be printed

  lemma {:induction false} ParametersTrimLeft(s: string)
    requires ParametersEnd(s, false) == |s|
    ensures var t := TrimLeft(s, ';'); ParametersEnd(t, false) == |t| && QuotedAfter(t, false) == QuotedAfter(s, false)
  {
    if s != "" && Cut(s[0], ';') {
      ParametersTrimLeft(s[1..]);
    }
  }

  lemma {:induction false} ParametersFront(s: string, quoted: bool)
    requires s != "" && ParametersEnd(s, quoted) == |s|
    ensures var t := s[..|s|-1]; ParametersEnd(t, quoted) == |t|
    ensures s[|s|-1] != '"' ==> QuotedAfter(s[..|s|-1], quoted) == QuotedAfter(s, quoted)
  {
    if |s| > 1 {
      var t := s[..|s|-1];
      assert t[1..] == s[1..][..|s|-2] && s[1..][|s|-2] == s[|s|-1];
      ParametersFront(s[1..], if s[0] == '"' then !quoted else quoted);
    } else {
      assert s[1..] == "" && s[..0] == "";
    }
  }

  lemma {:induction false} ParametersTrimRight(s: string)
    requires ParametersEnd(s, false) == |s|
    ensures var t := TrimRight(s, ';'); ParametersEnd(t, false) == |t| && QuotedAfter(t, false) == QuotedAfter(s, false)
  {
    if s != "" && Cut(s[|s|-1], ';') {
      ParametersFront(s, false);
      ParametersTrimRight(s[..|s|-1]);
    }
  }

  lemma {:induction false} ParametersCut(s: string, quoted: bool)
    ensures var k := ParametersEnd(s, quoted); ParametersEnd(s[..k], quoted) == k && (k < |s| ==> !QuotedAfter(s[..k], quoted))
  {
    var k := ParametersEnd(s, quoted);
    if k > 0 {
      ParametersCut(s[1..], if s[0] == '"' then !quoted else quoted);
      assert s[..k][1..] == s[1..][..k-1];
    }
  }

  lemma {:induction false} TrimIn(s: string, x: char, c: char)
    ensures c in TrimLeft(s, x) ==> c in s
    ensures c in TrimRight(s, x) ==> c in s
    ensures c in Trim(s, x) ==> c in s
  {
  }

  lemma ProtocolRead(s: string)
    requires SplitProtocol(s).Some?
    ensures var p := SplitProtocol(s).value.0;
            p != "" && ' ' !in p && Trimmed(p, ' ') && p[0] == Trim(s, ' ')[0]
  {
    hide Find;
    var t := Trim(s, ' ');
    var i := Find(t, ' ');
    assert i > 0;
    var p := t[..i];
    assert p[0] == t[0] && TrimLeft(p, ' ') == p;
    TrimIn(p, ' ', ' ');
    FirstStays(p, ' ');
  }

  lemma {:induction false} FirstStays(p: string, x: char)
    requires p != "" && !Cut(p[0], x)
    ensures TrimRight(p, x) != "" && TrimRight(p, x)[0] == p[0]
  {
    if Cut(p[|p|-1], x) {
      assert |p| > 1;
      FirstStays(p[..|p|-1], x);
    }
  }

  lemma SentByRead(r: string)
    ensures var sentBy := ParseRest(r).0; Trimmed(sentBy, ' ') && ';' !in sentBy && ',' !in sentBy
  {
    hide Trim, ParametersEnd;
    var t := r[..SentByEnd(r)];
    TrimIn(t, ' ', ';');
    TrimIn(t, ' ', ',');
  }

  lemma ParameterTrimmed(t: string)
    ensures var n := ParametersEnd(t, false); var p := Trim(t[..n], ';');
            ParametersEnd(p, false) == |p| && (n < |t| ==> !QuotedAfter(p, false))
  {
    hide ParametersEnd, QuotedAfter, TrimLeft, TrimRight;
    var q := t[..ParametersEnd(t, false)];
    ParametersCut(t, false);
    ParametersTrimLeft(q);
    ParametersTrimRight(TrimLeft(q, ';'));
  }

  lemma ParameterRead(r: string)
    ensures var (_, p, trail) := ParseRest(r);
            && Trimmed(p, ';') && ParametersEnd(p, false) == |p|
            && (trail != "" ==> !QuotedAfter(p, false)) && Trimmed(trail, ',')
  {
    hide SentByEnd, ParametersEnd, QuotedAfter, Trim;
    var i := SentByEnd(r);
    var t := r[i..];
    var n := ParametersEnd(t, false);
    assert r[i..i+n] == t[..n];
    ParameterTrimmed(t);
    if n == |t| {
      assert r[i+n..] == "";
    }
  }

  /** What the parser gives: all but the last condition of Listable. */
  predicate Read(vs: seq<ViaValue>, first: bool) {
    vs != [] ==>
      && Readable(vs[0]) && (first || vs[0].sentProtocol[0] != ',')
      && (|vs| > 1 ==> !QuotedAfter(vs[0].rawParameter, false))
      && Read(vs[1..], false)
  }

  lemma {:induction false} ParsedRead(s: string, first: bool)
    requires ParseList(s).Some? && (first || Trimmed(s, ','))
    ensures Read(ParseList(s).value, first)
    ensures s != "" ==> ParseList(s).value != []
    decreases |s|
  {
    hide ParametersEnd, QuotedAfter, Find, SentByEnd, Trim, ParseRest, SplitProtocol;
    if s != "" {
      assert first || Trim(s, ' ') == s by { TrimmedMore(s, first); }
      var (protocol, r) := SplitProtocol(s).value;
      ProtocolRead(s);
      SentByRead(r);
      ParameterRead(r);
      var (v, trail) := ParseFirst(s).value;
      Shorter(s);
      ParsedRead(trail, false);
      assert ParseList(s).value[1..] == ParseList(trail).value;
    }
  }

  lemma TrimmedMore(s: string, first: bool)
    requires first || Trimmed(s, ',')
    ensures first || Trim(s, ' ') == s
  {
  }

  lemma Shorter(s: string)
    requires s != "" && ParseFirst(s).Some?
    ensures |ParseFirst(s).value.1| < |s|
  {
  }

  /** The last value can be printed: it does not end in a blank, nor a list in a comma. */
  predicate LastPrints(vs: seq<ViaValue>, first: bool) {
    vs != [] ==>
      var v := vs[|vs|-1];
      !Blank(v) && (!first || |vs| > 1 ==> v.rawParameter != "" ==> v.rawParameter[|v.rawParameter|-1] != ',')
  }

  lemma {:induction false} ReadIsListable(vs: seq<ViaValue>, first: bool)
    requires Read(vs, first) && LastPrints(vs, first)
    ensures Listable(vs, first)
  {
    hide ParametersEnd, QuotedAfter;
    if |vs| > 1 {
      if vs[0].rawParameter != "" {
        LastNotComma(vs[0].rawParameter, false);
      }
      ReadIsListable(vs[1..], false);
    }
  }

  // What cannot be printed is not read back

  lemma RestFits(r: string)
    ensures var (sentBy, p, _) := ParseRest(r); |sentBy| + (if p == "" then 0 else 1 + |p|) <= |r|
  {
    hide Trim, ParametersEnd, SentByEnd;
    var i := SentByEnd(r);
    if i < |r| && r[i] == ',' {
      NoParameters(r[i..]);
    } else if ParametersEnd(r[i..], false) > 0 {
      var q := r[i..i + ParametersEnd(r[i..], false)];
      assert q[0] == ';';
      TrimLoses(q);
    }
  }

  /** A value is at most as long as the text it was read from. */
  lemma ValueFits(s: string)
    requires ParseFirst(s).Some?
    ensures |Text(ParseFirst(s).value.0)| <= |s|
  {
    hide Find, Trim, ParseRest;
    RestFits(SplitProtocol(s).value.1);
  }

  lemma NoParameters(t: string)
    requires t != "" && t[0] == ','
    ensures ParametersEnd(t, false) == 0
  {
  }

  lemma TrimLoses(q: string)
    requires q != "" && q[0] == ';'
    ensures |Trim(q, ';')| < |q|
  {
  }

  lemma {:induction false} TrimRightTwice(s: string)
    ensures TrimRight(TrimRight(s, ' '), ',') == TrimRight(s, ',')
  {
    if s != "" && Cut(s[|s|-1], ' ') { TrimRightTwice(s[..|s|-1]); }
  }

  /** Cutting from the right stops before a prefix that ends in something else. */
  lemma {:induction false} TrimRightBehind(a: string, b: string, x: char)
    requires b != "" && !Cut(b[0], x)
    ensures TrimRight(a + b, x) == a + TrimRight(b, x) && TrimRight(b, x) != "" && TrimRight(b, x)[0] == b[0]
  {
    assert (a + b)[|a + b|-1] == b[|b|-1];
    if Cut(b[|b|-1], x) {
      assert |b| > 1 && (a + b)[..|a + b|-1] == a + b[..|b|-1];
      TrimRightBehind(a, b[..|b|-1], x);
    }
  }

  /** The first value of a list is told apart whatever the rest ends in; the rest loses what
      is cut at its end. */
  lemma FirstOfList(v: ViaValue, rest: string)
    requires Readable(v) && !QuotedAfter(v.rawParameter, false) && rest != "" && !Cut(rest[0], ',')
    ensures ParseFirst(Text(v) + (", " + rest)) == Some((v, TrimRight(rest, ',')))
  {
    hide ParametersEnd, QuotedAfter, Text, ParseFirst, Trim, TrimLeft, Readable;
    var cut := TrimRight(rest, ' ');
    TrimRightBehind(Text(v) + ", ", rest, ' ');
    TrimRightTwice(rest);
    assert Text(v) + ", " + rest == Text(v) + (", " + rest) && Text(v) + ", " + cut == Text(v) + (", " + cut);
    TextEnds(v);
    ProtocolStarts(v);
    StartStays(Text(v) + (", " + rest));
    OuterBlanks(Text(v) + (", " + rest), Text(v) + (", " + cut));
    CutParsed(v, cut);
  }

  lemma ProtocolStarts(v: ViaValue)
    requires Readable(v)
    ensures !Cut(v.sentProtocol[0], ' ')
  {
  }

  lemma StartStays(s: string)
    requires s != "" && !Cut(s[0], ' ')
    ensures Trim(s, ' ') == TrimRight(s, ' ')
  {
  }

  lemma OuterBlanks(s: string, t: string)
    requires Trim(s, ' ') == t
    ensures ParseFirst(s) == ParseFirst(t)
  {
    hide Trim, Find, ParseRest;
    assert Trim(t, ' ') == t;
  }

  lemma CutParsed(v: ViaValue, rest: string)
    requires Readable(v) && !QuotedAfter(v.rawParameter, false) && rest != "" && !Cut(rest[0], ',') && Trimmed(rest, ' ')
    ensures ParseFirst(Text(v) + (", " + rest)) == Some((v, TrimRight(rest, ',')))
  {
    hide Trim, SplitProtocol, ParametersEnd, QuotedAfter, ParameterText, Trimmed, ParseRest, Text, Readable, TrimRight, Cut;
    var tail := ", " + rest;
    ParameterScanned(v, tail);
    ParameterStart(v, tail);
    TextRegrouped(v, tail);
    RestOfList(v, rest);
    RestSplit(v.sentBy, ParameterText(v), tail);
    ProtocolSplit(v.sentProtocol, v.sentBy + (ParameterText(v) + tail));
  }

  lemma RestOfList(v: ViaValue, rest: string)
    requires Readable(v) && rest != "" && !Cut(rest[0], ',') && Trimmed(rest, ' ')
    ensures var r := v.sentBy + (ParameterText(v) + (", " + rest)); r != "" && Trimmed(r, ' ')
    ensures Trim(", " + rest, ',') == TrimRight(rest, ',')
  {
    assert (", " + rest)[1..] == " " + rest && (" " + rest)[1..] == rest;
    assert TrimLeft(rest, ',') == rest;
    assert TrimLeft(", " + rest, ',') == rest;
  }

  /** A list that is read back from what is left of its printed form lost nothing there. */
  lemma {:induction false} NothingCut(vs: seq<ViaValue>)
    requires vs != [] && Read(vs, false) && ParseList(TrimRight(Join(vs), ',')) == Some(vs)
    ensures TrimRight(Join(vs), ',') == Join(vs)
  {
    hide Text, ParametersEnd, QuotedAfter, ParseFirst;
    var t := TrimRight(Join(vs), ',');
    TextEnds(vs[0]);
    if |vs| == 1 {
      ValueFits(t);
    } else {
      var rest := Join(vs[1..]);
      JoinStart(vs[1..]);
      TrimRightBehind(Text(vs[0]) + ", ", rest, ',');
      assert Text(vs[0]) + ", " + TrimRight(rest, ',') == Text(vs[0]) + (", " + TrimRight(rest, ','));
      FirstOfList(vs[0], TrimRight(rest, ','));
      CutOnce(rest);
      NothingCut(vs[1..]);
    }
  }

  lemma {:induction false} CutOnce(s: string)
    ensures TrimRight(TrimRight(s, ','), ',') == TrimRight(s, ',')
  {
  }

  lemma JoinStart(vs: seq<ViaValue>)
    requires vs != [] && Read(vs, false)
    ensures Join(vs) != "" && !Cut(Join(vs)[0], ',')
  {
    TextEnds(vs[0]);
  }

  /** A printed list ends as its last value does. */
  lemma {:induction false} JoinEnd(vs: seq<ViaValue>)
    requires vs != []
    ensures Join(vs) != "" && Join(vs)[|Join(vs)|-1] == Text(vs[|vs|-1])[|Text(vs[|vs|-1])|-1]
  {
    if |vs| > 1 { JoinEnd(vs[1..]); }
  }

  lemma {:induction false} LastReadable(vs: seq<ViaValue>, first: bool)
    requires vs != [] && Read(vs, first)
    ensures Readable(vs[|vs|-1])
  {
    if |vs| > 1 { LastReadable(vs[1..], false); }
  }

  lemma ReadableFirst(vs: seq<ViaValue>, first: bool)
    requires vs != [] && Read(vs, first)
    ensures Readable(vs[0]) && (|vs| > 1 ==> !QuotedAfter(vs[0].rawParameter, false))
  {
  }

  lemma CutParse(vs: seq<ViaValue>, rest: string)
    requires |vs| > 1 && ParseFirst(Join(vs)) == Some((vs[0], TrimRight(rest, ','))) && ParseList(Join(vs)) == Some(vs)
    ensures ParseList(TrimRight(rest, ',')) == Some(vs[1..])
  {
    hide ParseFirst, Text, TrimRight;
    JoinEnd(vs);
  }

  lemma ReadBackPrints(vs: seq<ViaValue>)
    requires vs != [] && Read(vs, true) && ParseList(Join(vs)) == Some(vs)
    ensures LastPrints(vs, true)
  {
    hide ParametersEnd, QuotedAfter, ParseFirst, Text, Readable, Blank, TrimRight, Cut;
    if |vs| == 1 {
      ReadableFirst(vs, true);
      if Blank(vs[0]) { BlankIsLost(vs[0]); }
    } else {
      var rest := Join(vs[1..]);
      JoinStart(vs[1..]);
      assert Join(vs) == Text(vs[0]) + (", " + rest);
      FirstOfList(vs[0], rest);
      CutParse(vs, rest);
      NothingCut(vs[1..]);
      JoinEnd(vs[1..]);
      LastReadable(vs, true);
      LastTight(vs[|vs|-1]);
    }
  }

  /** A value whose text does not end in what is cut. */
  lemma LastTight(v: ViaValue)
    requires Readable(v) && !Cut(Text(v)[|Text(v)|-1], ',')
    ensures !Blank(v) && (v.rawParameter != "" ==> v.rawParameter[|v.rawParameter|-1] != ',')
  {
    TextEnds(v);
  }

  /** The exact condition: a printed list is read back if and only if each value is one that
      can be read, quotes are closed before the next one, only the first protocol starts in
      a comma, and the last value ends in neither a blank nor, behind others, a comma. */
  lemma JoinParsedExactly(vs: seq<ViaValue>)
    ensures ParseList(Join(vs)) == Some(vs) <==> Listable(vs, true)
  {
    hide ParseList, Join, Read, LastPrints, Listable;
    if Listable(vs, true) {
      JoinParsed(vs, true);
    } else if ParseList(Join(vs)) == Some(vs) {
      ParsedRead(Join(vs), true);
      if vs != [] { ReadBackPrints(vs); } else { EmptyListable(); }
      ReadIsListable(vs, true);
    }
  }

  lemma EmptyListable()
    ensures Listable([], true) && LastPrints([], true) && Read([], true)
  {
  }

  /** What was read from any text reads the same after printing if and only if its last value
      can be printed. */
  lemma ReprintParsed(s: string)
    requires ParseList(s).Some?
    ensures ParseList(Join(ParseList(s).value)) == ParseList(s) <==> LastPrints(ParseList(s).value, true)
  {
    hide ParseList, Join, Read, LastPrints, Listable;
    var vs := ParseList(s).value;
    ParsedRead(s, true);
    if LastPrints(vs, true) {
      ReadIsListable(vs, true);
      JoinParsed(vs, true);
    } else if ParseList(Join(vs)) == Some(vs) {
      if vs != [] { ReadBackPrints(vs); } else { EmptyListable(); }
    }
  }

  /** A single value is printed and read back if and only if no part of it holds what ends
      that part, and something follows the protocol. */
  lemma TextParsedExactly(v: ViaValue)
    ensures ParseList(Text(v)) == Some([v]) <==> Readable(v) && !Blank(v)
  {
    hide ParametersEnd, QuotedAfter, ParseList;
    JoinParsedExactly([v]);
  }

  lemma BlankIsLost(v: ViaValue)
    requires Readable(v) && Blank(v)
    ensures ParseList(Text(v)).None?
  {
  }
}
