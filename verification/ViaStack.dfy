/** The stack of Via header objects (sip/header.go), and reading it from header lines
    (sip/message.go). */
module ViaStack {
  import opened Searching
  import opened Wrappers
  import opened Vias

  class Via {
    var sentProtocol: string
    var sentBy: string
    var rawParameter: string

    function View(): ViaValue
      reads this
    {
      ViaValue(sentProtocol, sentBy, rawParameter)
    }

    constructor (protocol: string, sentBy: string, parameter: string)
      ensures View() == ViaValue(Trim(protocol, ' '), Trim(sentBy, ' '), Trim(parameter, ';'))
    {
      this.sentProtocol, this.sentBy, this.rawParameter := Trim(protocol, ' '), Trim(sentBy, ' '), Trim(parameter, ';');
    }

    constructor Copy(v: Via)
      ensures View() == v.View()
    {
      sentProtocol, sentBy, rawParameter := v.sentProtocol, v.sentBy, v.rawParameter;
    }

    method Clone() returns (cp: Via)
      ensures fresh(cp) && cp.View() == View()
    {
      cp := new Via.Copy(this);
    }

    method ToText() returns (s: string)
      ensures s == Text(View())
    {
      var param := "";
      if rawParameter != "" {
        param := ";" + rawParameter;
      }
      return sentProtocol + " " + sentBy + param;
    }
  }

  function Views(vias: seq<Via>): (vs: seq<ViaValue>)
    reads vias
    ensures |vs| == |vias| && forall i :: 0 <= i < |vs| ==> vs[i] == vias[i].View()
  {
    seq(|vias|, i requires 0 <= i < |vias| reads vias => vias[i].View())
  }

  function Reverse<T>(s: seq<T>): (r: seq<T>)
    ensures |r| == |s| && forall i :: 0 <= i < |s| ==> r[i] == s[|s|-1-i]
  {
    seq(|s|, i requires 0 <= i < |s| => s[|s|-1-i])
  }

  /** The header lines of a stack, topmost first. */
  function Lines(vs: seq<ViaValue>, key: string): string {
    if vs == [] then "" else Line(vs[0], key) + Lines(vs[1..], key)
  }

  function Line(v: ViaValue, key: string): string {
    key + Text(v) + "\r\n"
  }

  lemma {:induction false} LinesMore(vs: seq<ViaValue>, v: ViaValue, key: string)
    ensures Lines(vs + [v], key) == Lines(vs, key) + Line(v, key)
  {
    hide Line;
    if vs == [] {
      assert [] + [v] == [v];
      assert Lines([v], key) == Line(v, key) + "";
    } else {
      LinesMore(vs[1..], v, key);
      assert (vs + [v])[1..] == vs[1..] + [v];
    }
  }

  lemma LineIs(v: ViaValue, key: string)
    ensures Line(v, key) == key + Text(v) + "\r\n"
    ensures Lines([], key) == ""
  {
  }

  class ViaHeaders {
    /** The topmost value is the last. */
    var header: seq<Via>

    /** Topmost first. */
    function Stack(): seq<Via>
      reads this
    {
      Reverse(header)
    }

    function Values(): seq<ViaValue>
      reads this, header
    {
      Views(Stack())
    }

    constructor ()
      ensures header == []
    {
      header := [];
    }

    /** A stack of copies; the copies are new objects. */
    method Clone() returns (cp: ViaHeaders)
      ensures fresh(cp) && fresh(cp.header) && cp.Values() == Values()
      ensures |cp.header| == |header| && Distinct(cp.header)
    {
      cp := new ViaHeaders();
      var copies: seq<Via> := [];
      for i := 0 to |header|
        invariant |copies| == i && fresh(copies) && Distinct(copies)
        invariant forall k :: 0 <= k < i ==> copies[k].View() == header[k].View()
      {
        var c := header[i].Clone();
        copies := copies + [c];
      }
      cp.header := copies;
    }

    /** Puts a value on top. */
    method Insert(via: Via) returns (ok: bool)
      modifies this`header
      ensures ok && Stack() == [via] + old(Stack()) && header == old(header) + [via]
    {
      header := header + [via];
      return true;
    }

    /** Puts a value at the bottom. */
    method Append(via: Via) returns (ok: bool)
      modifies this`header
      ensures ok && Stack() == old(Stack()) + [via]
    {
      header := [via] + header;
      return true;
    }

    method Get(index: int) returns (via: Via?)
      ensures if 0 <= index < |Stack()| then via == Stack()[index] else via == null
    {
      var lastIndex := |header| - 1;
      if index > lastIndex || index < 0 {
        return null;
      }
      return header[lastIndex - index];
    }

    method TopMost() returns (via: Via?)
      ensures if Stack() == [] then via == null else via == Stack()[0]
    {
      via := Get(0);
    }

    method Pop() returns (via: Via?)
      modifies this`header
      ensures if old(Stack()) == [] then via == null && Stack() == [] else via == old(Stack())[0] && Stack() == old(Stack())[1..]
    {
      if |header| == 0 {
        return null;
      }
      via := Get(0);
      header := header[..|header|-1];
    }

    method WriteHeader(compact: bool) returns (str: string)
      ensures str == Lines(Values(), if compact then "v: " else "Via: ")
    {
      hide Line, Lines;
      var key := if compact then "v: " else "Via: ";
      str := "";
      ghost var vs := Values();
      assert vs[..0] == [] && Lines([], key) == "" by { LineIs(ViaValue("", "", ""), key); }
      for i := |header| downto 0
        invariant str == Lines(vs[..|header|-i], key)
      {
        ghost var n := |header| - 1 - i;
        LinesMore(vs[..n], vs[n], key);
        assert vs[..n+1] == vs[..n] + [vs[n]];
        var text := header[i].ToText();
        LineIs(vs[n], key);
        str := str + (key + text + "\r\n");
      }
      assert vs[..|header|] == vs;
    }
  }

  // Reading

  datatype Outcome = Done | OutOfRange

  method FindSentByEnd(s: string) returns (i: nat)
    ensures i == SentByEnd(s)
  {
    i := 0;
    assert s[0..] == s;
    while i < |s|
      invariant i <= |s| && SentByEnd(s) == i + SentByEnd(s[i..])
    {
      if s[i] == ';' || s[i] == ',' {
        break;
      }
      assert s[i..][1..] == s[i+1..];
      i := i + 1;
    }
  }

  method FindParametersEnd(s: string) returns (i: nat)
    ensures i == ParametersEnd(s, false)
  {
    i := 0;
    var quoted := false;
    assert s[0..] == s;
    while i < |s|
      invariant i <= |s| && ParametersEnd(s, false) == i + ParametersEnd(s[i..], quoted)
    {
      assert s[i..][1..] == s[i+1..];
      if s[i] == '"' {
        quoted := !quoted;
      } else if s[i] == ',' && !quoted {
        break;
      }
      i := i + 1;
    }
  }

  /** Reads the first value of a list; without a blank an index is out of range. */
  method ReadFirst(s: string) returns (found: Option<Via>, trail: string)
    ensures found.None? <==> ParseFirst(s).None?
    ensures found.Some? ==> fresh(found.value) && ParseFirst(s) == Some((found.value.View(), trail))
  {
    hide Find, SentByEnd, ParametersEnd, Trim;
    var t := Trim(s, ' ');
    var sp := Find(t, ' ');
    if sp == |t| {
      return None, "";
    }
    var protocol, rest := Trim(t[..sp], ' '), Trim(t[sp+1..], ' ');
    var i := FindSentByEnd(rest);
    var k := FindParametersEnd(rest[i..]);
    assert rest[i..][..k] == rest[i..i+k] && rest[i..][k..] == rest[i+k..];
    var via := new Via(protocol, rest[..i], Trim(rest[i..][..k], ';'));
    assert Trim(protocol, ' ') == protocol by { TrimTwice(t[..sp], ' '); }
    assert via.rawParameter == Trim(rest[i..i+k], ';') by { TrimTwice(rest[i..i+k], ';'); }
    found, trail := Some(via), Trim(rest[i..][k..], ',');
  }

  lemma TrimTwice(s: string, x: char)
    ensures Trim(Trim(s, x), x) == Trim(s, x)
  {
  }

  /** `ParseVias`: every value of the list goes to the bottom of the stack. */
  method ParseVias(s: string, v: ViaHeaders) returns (r: Outcome, ghost added: seq<Via>)
    modifies v
    ensures r.OutOfRange? <==> ParseList(s).None?
    ensures v.Stack() == Under(old(v.Stack()), added)
    ensures r.Done? ==> Views(added) == ParseList(s).value
    decreases |s|
  {
    UnderNone(v.Stack());
    hide ParseFirst, Reverse, Views, Under;
    if s == "" {
      return Done, [];
    }
    var found, trail := ReadFirst(s);
    if found.None? {
      return OutOfRange, [];
    }
    var first := found.value;
    ListStep(s, first.View(), trail);
    hide ParseList;
    var _ := v.Append(first);
    ghost var rest;
    r, rest := ParseVias(trail, v);
    added := [first] + rest;
    StackedOn(old(v.Stack()), first, rest);
  }

  /** A stack with more values below. */
  function Under<T>(stack: seq<T>, more: seq<T>): seq<T> {
    stack + more
  }

  lemma UnderNone(stack: seq<Via>)
    ensures Under(stack, []) == stack && Views([]) == []
  {
  }

  lemma StackedOn(stack: seq<Via>, via: Via, rest: seq<Via>)
    ensures Under(stack + [via], rest) == Under(stack, [via] + rest)
    ensures Views([via] + rest) == [via.View()] + Views(rest)
  {
  }

  lemma ListStep(s: string, first: ViaValue, trail: string)
    requires s != "" && ParseFirst(s) == Some((first, trail))
    ensures |trail| < |s|
    ensures ParseList(s).Some? <==> ParseList(trail).Some?
    ensures ParseList(s).Some? ==> ParseList(s).value == [first] + ParseList(trail).value
  {
    hide ParseFirst;
    Shorter(s);
  }

  /** All Via lines of a message, in order. */
  function ParseLines(lines: seq<string>): Option<seq<ViaValue>> {
    if lines == [] then Some([])
    else
      match (ParseList(lines[0]), ParseLines(lines[1..]))
      case (Some(vs), Some(rest)) => Some(vs + rest)
      case _ => None
  }

  function Flatten(lists: seq<seq<ViaValue>>): seq<ViaValue> {
    if lists == [] then [] else lists[0] + Flatten(lists[1..])
  }

  function JoinAll(lists: seq<seq<ViaValue>>): seq<string> {
    if lists == [] then [] else [Join(lists[0])] + JoinAll(lists[1..])
  }

  /** However a stack is split into printed lines, the lines are read as the same stack. */
  lemma {:induction false} LinesParsed(lists: seq<seq<ViaValue>>)
    requires forall l :: l in lists ==> Listable(l, true)
    ensures ParseLines(JoinAll(lists)) == Some(Flatten(lists))
  {
    hide Listable, ParseList, Join;
    if lists != [] {
      assert lists[0] in lists;
      JoinParsed(lists[0], true);
      LinesParsed(lists[1..]);
      assert JoinAll(lists)[1..] == JoinAll(lists[1..]);
    }
  }

  lemma ParseLinesFrom(lines: seq<string>, i: nat)
    requires i < |lines|
    ensures ParseLines(lines[i..])
         == if ParseList(lines[i]).Some? && ParseLines(lines[i+1..]).Some?
            then Some(ParseList(lines[i]).value + ParseLines(lines[i+1..]).value) else None
  {
  }

  /** Reads the Via lines of a message into a new stack. */
  method ReadLines(lines: seq<string>) returns (r: Outcome, v: ViaHeaders)
    ensures fresh(v) && (r.Done? <==> ParseLines(lines).Some?)
    ensures r.Done? ==> v.Values() == ParseLines(lines).value
  {
    hide ParseList, ParseLines, Views, Under, Reverse;
    v := new ViaHeaders();
    ghost var all: seq<Via>, done: seq<ViaValue> := [], [];
    assert lines[0..] == lines;
    assert Views(all) == [];
    ReadsMore(ParseLines(lines), [], [], ParseLines(lines));
    for i := 0 to |lines|
      invariant v.Stack() == all && Views(all) == done
      invariant Reads(ParseLines(lines), done, ParseLines(lines[i..]))
    {
      ParseLinesFrom(lines, i);
      ghost var added;
      r, added := ParseVias(lines[i], v);
      if r != Done {
        return;
      }
      UnderViews(all, added);
      ReadsMore(ParseLines(lines), done, ParseList(lines[i]).value, ParseLines(lines[i+1..]));
      all, done := all + added, done + ParseList(lines[i]).value;
    }
    r := Done;
    NoLines();
    assert lines[|lines|..] == [] && done + [] == done;
  }

  /** `whole` is `done` followed by `rest`. */
  predicate Reads(whole: Option<seq<ViaValue>>, done: seq<ViaValue>, rest: Option<seq<ViaValue>>) {
    if rest.Some? then whole == Some(done + rest.value) else whole.None?
  }

  lemma ReadsMore(whole: Option<seq<ViaValue>>, done: seq<ViaValue>, vs: seq<ViaValue>, rest: Option<seq<ViaValue>>)
    ensures Reads(whole, done, if rest.Some? then Some(vs + rest.value) else None) <==> Reads(whole, done + vs, rest)
    ensures Reads(whole, [], whole)
  {
    if rest.Some? {
      assert done + (vs + rest.value) == done + vs + rest.value;
    }
    if whole.Some? {
      assert [] + whole.value == whole.value;
    }
  }

  lemma UnderViews(stack: seq<Via>, added: seq<Via>)
    ensures Under(stack, added) == stack + added && Views(stack + added) == Views(stack) + Views(added)
  {
  }

  lemma NoLines()
    ensures ParseLines([]) == Some([])
  {
  }
}
