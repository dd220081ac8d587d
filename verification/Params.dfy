/** Header parameters as `url.ParseQuery` of Go 1.13 reads them, with '&' and ';' as
    separators, and as the proxy writes them back (proxy_request_controller.go). */
module Params {
  import opened Searching
  import opened Wrappers
  import Percent

  type Values = map<string, seq<string>>

  // Reading

  /** Unescapes a key or a value. */
  function QueryUnescape(s: string): Option<string> {
    if forall i :: 0 <= i < |s| ==> s[i] as int < 256 then
      match Percent.Unescape(s, Percent.QueryComponent)
      case Ok(t) => Some(t)
      case Err(_) => None
    else None
  }

  predicate Separator(c: char) {
    c == '&' || c == ';'
  }

  function PieceEnd(q: string): (i: nat)
    ensures i <= |q| && (i < |q| ==> Separator(q[i]))
    ensures forall k :: 0 <= k < i ==> !Separator(q[k])
  {
    if q == "" || Separator(q[0]) then 0 else 1 + PieceEnd(q[1..])
  }

  function Added(m: Values, key: string, value: string): Values {
    m[key := Listed(m, key) + [value]]
  }

  function Listed(m: Values, key: string): seq<string> {
    if key in m then m[key] else []
  }

  /** A piece that cannot be unescaped is passed over. */
  function AddPiece(m: Values, piece: string): Values {
    if piece == "" then m
    else
      var e := Find(piece, '=');
      match (QueryUnescape(piece[..e]), QueryUnescape(if e < |piece| then piece[e+1..] else ""))
      case (Some(key), Some(value)) => Added(m, key, value)
      case _ => m
  }

  function ParseInto(m: Values, q: string): Values
    decreases |q|
  {
    if q == "" then m
    else
      var i := PieceEnd(q);
      ParseInto(AddPiece(m, q[..i]), if i < |q| then q[i+1..] else "")
  }

  function ParseQuery(q: string): Values {
    ParseInto(map[], q)
  }

  function Get(m: Values, key: string): string {
    if key in m && m[key] != [] then m[key][0] else ""
  }

  // Writing

  /** Every key with every value, in the order of the keys. */
  function Pairs(m: Values, order: seq<string>): seq<(string, string)>
    requires forall k :: k in order ==> k in m
  {
    if order == [] then [] else PairsOf(order[0], m[order[0]]) + Pairs(m, order[1..])
  }

  function PairsOf(key: string, values: seq<string>): seq<(string, string)> {
    if values == [] then [] else [(key, values[0])] + PairsOf(key, values[1..])
  }

  function Pair(p: (string, string)): string {
    p.0 + ("=" + p.1)
  }

  function Text(ps: seq<(string, string)>): string {
    if ps == [] then "" else ";" + (Pair(ps[0]) + Text(ps[1..]))
  }

  // Reading what was written

  /** No byte with a meaning of its own in a query. */
  predicate Clean(s: string) {
    forall i :: 0 <= i < |s| ==> s[i] as int < 256 && s[i] != '%' && s[i] != '+' && !Separator(s[i])
  }

  predicate CleanPair(p: (string, string)) {
    Clean(p.0) && Clean(p.1) && '=' !in p.0
  }

  lemma {:induction false} NothingToUnescape(s: Percent.Bytes)
    requires '%' !in s && '+' !in s
    ensures Percent.Unescape(s, Percent.QueryComponent) == Ok(s)
  {
    if s != [] {
      NothingToUnescape(s[1..]);
      assert s == [s[0]] + s[1..];
    }
  }

  lemma CleanUnescaped(s: string)
    requires Clean(s)
    ensures QueryUnescape(s) == Some(s)
  {
    NothingToUnescape(s);
  }

  lemma {:induction false} PieceEndIs(q: string, i: nat)
    requires i <= |q| && (i < |q| ==> Separator(q[i])) && forall k :: 0 <= k < i ==> !Separator(q[k])
    ensures PieceEnd(q) == i
  {
  }

  lemma PairAdded(m: Values, p: (string, string))
    requires CleanPair(p)
    ensures AddPiece(m, Pair(p)) == Added(m, p.0, p.1)
    ensures Pair(p) != "" && forall k :: 0 <= k < |Pair(p)| ==> !Separator(Pair(p)[k])
  {
    hide QueryUnescape;
    var s := Pair(p);
    assert s[..|p.0|] == p.0 && s[|p.0|] == '=' && s[|p.0|+1..] == p.1;
    FindIs(s, '=', |p.0|);
    CleanUnescaped(p.0);
    CleanUnescaped(p.1);
  }

  function AddPairs(m: Values, ps: seq<(string, string)>): Values
    decreases |ps|
  {
    if ps == [] then m else AddPairs(Added(m, ps[0].0, ps[0].1), ps[1..])
  }

  lemma FirstPiece(m: Values, s: string, t: string)
    requires s != "" && (forall k :: 0 <= k < |s| ==> !Separator(s[k])) && (t == "" || t[0] == ';')
    ensures ParseInto(m, s + t) == ParseInto(AddPiece(m, s), if t == "" then "" else t[1..])
  {
    hide AddPiece;
    var q := s + t;
    PieceEndIs(q, |s|);
    assert q[..|s|] == s && (t != "" ==> q[|s|+1..] == t[1..]);
  }

  lemma TextTail(ps: seq<(string, string)>)
    requires ps != []
    ensures Text(ps) != "" && Text(ps)[0] == ';' && Text(ps)[1..] == Pair(ps[0]) + Text(ps[1..])
  {
  }

  lemma {:induction false} TextParsed(m: Values, ps: seq<(string, string)>)
    requires ps != [] && forall p :: p in ps ==> CleanPair(p)
    ensures Text(ps) != "" && ParseInto(m, Text(ps)[1..]) == AddPairs(m, ps)
    decreases |ps|
  {
    assert ps[0] in ps;
    TextTail(ps);
    PairAdded(m, ps[0]);
    if |ps| > 1 {
      TextTail(ps[1..]);
      TextParsed(Added(m, ps[0].0, ps[0].1), ps[1..]);
    }
    hide AddPiece, Added, Pair, CleanPair, Text, Separator;
    FirstPiece(m, Pair(ps[0]), Text(ps[1..]));
    if |ps| == 1 {
      TextNone();
    }
  }

  lemma TextNone()
    ensures Text([]) == "" && forall m :: ParseInto(m, "") == m
  {
  }

  function AddedAll(m: Values, key: string, values: seq<string>): Values {
    if values == [] then m else m[key := Listed(m, key) + values]
  }

  lemma AddedFirst(m: Values, key: string, values: seq<string>)
    requires values != []
    ensures AddedAll(Added(m, key, values[0]), key, values[1..]) == AddedAll(m, key, values)
  {
    if values[1..] == [] {
      assert values == [values[0]];
    } else {
      assert Listed(m, key) + [values[0]] + values[1..] == Listed(m, key) + values;
    }
  }

  lemma {:induction false} ValuesAdded(m: Values, key: string, values: seq<string>, rest: seq<(string, string)>)
    ensures AddPairs(m, PairsOf(key, values) + rest) == AddPairs(AddedAll(m, key, values), rest)
    decreases |values|
  {
    if values == [] {
      assert PairsOf(key, values) + rest == rest;
    } else {
      hide Added, AddedAll;
      var ps := PairsOf(key, values) + rest;
      assert ps[0] == (key, values[0]) && ps[1..] == PairsOf(key, values[1..]) + rest;
      ValuesAdded(Added(m, key, values[0]), key, values[1..], rest);
      AddedFirst(m, key, values);
    }
  }

  function Part(m: Values, order: seq<string>): Values {
    map k | k in m && k in order :: m[k]
  }

  lemma PartFirst(m: Values, acc: Values, order: seq<string>)
    requires order != [] && order[0] in m && Distinct(order)
    ensures acc[order[0] := m[order[0]]] + Part(m, order[1..]) == acc + Part(m, order)
    ensures order[0] !in order[1..]
  {
  }

  lemma {:induction false} AllAdded(m: Values, acc: Values, order: seq<string>)
    requires (forall k :: k in order ==> k in m && m[k] != [] && k !in acc) && Distinct(order)
    ensures AddPairs(acc, Pairs(m, order)) == acc + Part(m, order)
    decreases |order|
  {
    if order == [] {
      assert Part(m, order) == map[];
    } else {
      hide Part;
      var k := order[0];
      PartFirst(m, acc, order);
      assert k in order && forall x :: x in order[1..] ==> x in order;
      ValuesAdded(acc, k, m[k], Pairs(m, order[1..]));
      assert [] + m[k] == m[k];
      AllAdded(m, acc[k := m[k]], order[1..]);
    }
  }

  ghost predicate CleanValues(m: Values) {
    forall k :: k in m ==> Clean(k) && '=' !in k && m[k] != [] && forall v :: v in m[k] ==> Clean(v)
  }

  /** The keys of a map in some order. */
  ghost predicate Order(m: Values, order: seq<string>) {
    Distinct(order) && forall k :: k in order <==> k in m
  }

  lemma {:induction false} PairsClean(m: Values, order: seq<string>)
    requires CleanValues(m) && forall k :: k in order ==> k in m
    ensures forall p :: p in Pairs(m, order) ==> CleanPair(p)
  {
    hide Clean;
    if order != [] {
      assert order[0] in order;
      PairsClean(m, order[1..]);
      PairsOfClean(order[0], m[order[0]]);
    }
  }

  lemma {:induction false} PairsOfClean(key: string, values: seq<string>)
    requires Clean(key) && '=' !in key && forall v :: v in values ==> Clean(v)
    ensures forall p :: p in PairsOf(key, values) ==> CleanPair(p)
  {
    hide Clean;
    if values != [] {
      assert values[0] in values;
      PairsOfClean(key, values[1..]);
    }
  }

  /** Parameters written in any order of their keys are read back. */
  lemma WrittenRead(m: Values, order: seq<string>)
    requires CleanValues(m) && Order(m, order) && m != map[]
    ensures var s := Text(Pairs(m, order)); s != "" && ParseQuery(s[1..]) == m
  {
    hide Pairs, Text, ParseInto;
    PairsClean(m, order);
    AllAdded(m, map[], order);
    assert map[] + Part(m, order) == m;
    assert AddPairs(map[], []) == map[];
    TextParsed(map[], Pairs(m, order));
  }

  lemma OnePair(p: (string, string))
    requires CleanPair(p)
    ensures ParseQuery(Pair(p)) == Added(map[], p.0, p.1)
  {
    PairAdded(map[], p);
    hide Pair, CleanPair, Separator, AddPiece, Added;
    FirstPiece(map[], Pair(p), "");
    assert Pair(p) + "" == Pair(p);
    TextNone();
  }

  // What is read is clean

  predicate CleanText(q: string) {
    forall i :: 0 <= i < |q| ==> q[i] as int < 256 && q[i] != '%' && q[i] != '+' && q[i] != '&'
  }

  lemma AddedClean(m: Values, key: string, value: string)
    requires CleanValues(m) && Clean(key) && '=' !in key && Clean(value)
    ensures CleanValues(Added(m, key, value))
  {
  }

  lemma PieceClean(m: Values, piece: string)
    requires CleanValues(m) && Clean(piece)
    ensures CleanValues(AddPiece(m, piece))
  {
    if piece != "" {
      var e := Find(piece, '=');
      var key, value := piece[..e], if e < |piece| then piece[e+1..] else "";
      assert Clean(key) && Clean(value) && '=' !in key;
      hide CleanValues, Clean, QueryUnescape, Added;
      CleanUnescaped(key);
      CleanUnescaped(value);
      AddedClean(m, key, value);
    }
  }

  /** A text without percent, plus and ampersand signs reads as such values. */
  lemma {:induction false} ReadClean(m: Values, q: string)
    requires CleanValues(m) && CleanText(q)
    ensures CleanValues(ParseInto(m, q))
    decreases |q|
  {
    hide AddPiece, CleanValues;
    if q != "" {
      var i := PieceEnd(q);
      PieceClean(m, q[..i]);
      ReadClean(AddPiece(m, q[..i]), if i < |q| then q[i+1..] else "");
    }
  }

  /** Setting one parameter and writing all of them in any order reads back as the same
      parameters with that one set, if no byte that was read has a meaning when it is
      written as it is. */
  lemma SetWrittenRead(raw: string, key: string, value: string, order: seq<string>)
    requires CleanValues(ParseQuery(raw)) && Clean(key) && '=' !in key && Clean(value)
    requires Order(ParseQuery(raw)[key := [value]], order)
    ensures var m := ParseQuery(raw)[key := [value]];
            var s := Text(Pairs(m, order));
            s != "" && ParseQuery(s[1..]) == m && Get(m, key) == value
  {
    hide ParseQuery, Clean;
    var m := ParseQuery(raw)[key := [value]];
    assert key in m;
    WrittenRead(m, order);
  }

  /** One pair whose value is unescaped. */
  lemma OneRead(key: string, written: string, value: string)
    requires Clean(key) && '=' !in key && (forall i :: 0 <= i < |written| ==> !Separator(written[i]))
    requires QueryUnescape(written) == Some(value)
    ensures ParseQuery(Pair((key, written))) == map[key := [value]]
  {
    var s := Pair((key, written));
    assert s[..|key|] == key && s[|key|] == '=' && s[|key|+1..] == written;
    FindIs(s, '=', |key|);
    CleanUnescaped(key);
    hide QueryUnescape;
    assert AddPiece(map[], s) == Added(map[], key, value);
    assert [] + [value] == [value];
    FirstPiece(map[], s, "");
    assert s + "" == s;
    TextNone();
  }

  /** It may have one: an escaped plus sign is read as itself, written as it is, and then read
      as a blank. */
  lemma PlusIsLost()
    ensures ParseQuery(Pair(("a", Percent.Escape("+", Percent.QueryComponent)))) == map["a" := ["+"]]
    ensures ParseQuery(Pair(("a", "+"))) == map["a" := [" "]]
  {
    hide ParseQuery, Pair, QueryUnescape;
    PlusDecoded();
    OneRead("a", Percent.Escape("+", Percent.QueryComponent), "+");
    OneRead("a", "+", " ");
  }

  lemma PlusDecoded()
    ensures var e := Percent.Escape("+", Percent.QueryComponent);
            QueryUnescape(e) == Some("+") && forall i :: 0 <= i < |e| ==> !Separator(e[i])
    ensures QueryUnescape("+") == Some(" ")
  {
    var plus: Percent.Bytes := "+";
    Percent.EscapeRoundTrip(plus, Percent.QueryComponent);
    assert plus[1..] == [];
    assert Percent.Escape(plus, Percent.QueryComponent) == Percent.EscapeByte('+', Percent.QueryComponent) + [];
    assert Percent.Fault(plus, Percent.QueryComponent).None? && Percent.Width(plus) == 1;
    assert Percent.Meaning(plus, Percent.QueryComponent) == ' ';
    var none: Percent.Bytes := [];
    assert Percent.Unescape(none, Percent.QueryComponent) == Ok(none);
    assert Percent.Unescape(plus, Percent.QueryComponent) == Ok([' '] + none);
    assert [' '] + none == " ";
  }

  // The loop that writes

  method WriteParameters(m: Values, order: seq<string>) returns (s: string)
    requires forall k :: k in order ==> k in m
    ensures s == Text(Pairs(m, order))
  {
    hide Pair;
    s := "";
    ghost var rest := Pairs(m, order);
    assert order[0..] == order;
    for i := 0 to |order|
      invariant forall k :: k in order[i..] ==> k in m
      invariant Text(Pairs(m, order)) == s + Text(Pairs(m, order[i..]))
    {
      var key := order[i];
      assert key in order[i..] && order[i..][1..] == order[i+1..];
      var values := m[key];
      ghost var later := Pairs(m, order[i+1..]);
      assert values[0..] == values;
      for j := 0 to |values|
        invariant Text(Pairs(m, order)) == s + Text(PairsOf(key, values[j..]) + later)
      {
        TextOne(key, values, j, later);
        Join(s, ";" + Pair((key, values[j])), Text(PairsOf(key, values[j+1..]) + later));
        PairIs(key, values[j]);
        s := s + (";" + key + "=" + values[j]);
      }
      assert PairsOf(key, values[|values|..]) + later == later;
    }
    assert Pairs(m, order[|order|..]) == [] && s + "" == s;
  }

  lemma PairIs(key: string, value: string)
    ensures ";" + Pair((key, value)) == ";" + key + "=" + value
  {
  }

  lemma Join(a: string, b: string, c: string)
    ensures a + (b + c) == a + b + c
  {
  }

  lemma TextOne(key: string, values: seq<string>, j: nat, later: seq<(string, string)>)
    requires j < |values|
    ensures Text(PairsOf(key, values[j..]) + later) == ";" + Pair((key, values[j])) + Text(PairsOf(key, values[j+1..]) + later)
  {
    hide Pair;
    var ps := PairsOf(key, values[j..]) + later;
    assert values[j..][1..] == values[j+1..];
    assert ps[0] == (key, values[j]) && ps[1..] == PairsOf(key, values[j+1..]) + later;
    Join(";", Pair(ps[0]), Text(ps[1..]));
  }
}
