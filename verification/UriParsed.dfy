/** What the parser accepts is canonical, so printing it and parsing again is understood
    for every text (sip/uri.go). */
module UriParsed {
  import opened Wrappers
  import opened Percent
  import opened Uris
  import opened UriPrinting
  import opened UriRoundTrip

  // A host name that was read

  lemma HostByte(s: Bytes)
    requires s != [] && Fault(s, Host).None?
    ensures |s| >= Width(s) && Survives(Meaning(s, Host), Host)
    ensures s[0] == '%' ==> Meaning(s, Host) == '%' || Meaning(s, Host) as int >= 0x80
    ensures s[0] != '%' ==> Meaning(s, Host) == s[0]
  {
  }

  /** Marks of a host name: not hexadecimal digits, and never escaped. */
  predicate Mark(c: Byte) {
    c == '[' || c == ']' || c == ':' || c == ';'
  }

  lemma {:induction false} UnescapedHost(s: Bytes)
    requires Unescape(s, Host).Ok?
    ensures var h := Unescape(s, Host).value;
            && (forall b :: b in h ==> Survives(b, Host))
            && (forall c :: c in h && Mark(c) ==> c in s)
            && (s == [] <==> h == [])
            && (s != [] ==> (s[0] == '[' <==> h[0] == '['))
    ensures '%' !in s ==> Unescape(s, Host).value == s
  {
    if s != [] {
      hide Fault, Meaning, Survives;
      var t := s[Width(s)..];
      HostByte(s);
      UnescapedHost(t);
      assert forall c :: c in t ==> c in s;
      assert Unescape(s, Host).value == [Meaning(s, Host)] + Unescape(t, Host).value;
      assert '%' !in s ==> s[0] != '%' && s == [s[0]] + t;
    }
  }

  lemma UnescapeOne(s: Bytes)
    requires s != []
    ensures Unescape(s, Host).Ok? <==> Fault(s, Host).None? && Unescape(s[Width(s)..], Host).Ok?
    ensures Unescape(s, Host).Ok? ==> Unescape(s, Host).value == [Meaning(s, Host)] + Unescape(s[Width(s)..], Host).value
  {
  }

  /** An escape does not reach over a mark. */
  lemma {:induction false} UnescapeCut(a: Bytes, c: Byte, b: Bytes)
    requires Mark(c) && Unescape(a + ([c] + b), Host).Ok?
    ensures Unescape(a, Host).Ok? && Unescape(b, Host).Ok?
    ensures Unescape(a + ([c] + b), Host).value == Unescape(a, Host).value + ([c] + Unescape(b, Host).value)
  {
    hide Unescape, Fault, Mark, Meaning;
    var s := a + ([c] + b);
    UnescapeOne(s);
    if a == [] {
      MarkIs(c);
      MarkMeans(s);
      assert s == [c] + b && s[1..] == b;
      assert Unescape(a, Host) == Ok([]) by { UnescapeNone(Host); }
    } else {
      WithinA(a, c, b);
      var w := Width(s);
      assert s[w..] == a[w..] + ([c] + b);
      UnescapeCut(a[w..], c, b);
      SameStart(a, [c] + b);
      UnescapeOne(a);
    }
  }

  lemma MarkMeans(s: Bytes)
    requires s != [] && s[0] != '%'
    ensures Meaning(s, Host) == s[0]
  {
  }

  lemma MarkIs(c: Byte)
    requires Mark(c)
    ensures c != '%' && c != '+' && !IsHex(c)
  {
  }

  lemma WithinA(a: Bytes, c: Byte, b: Bytes)
    requires a != [] && Mark(c) && Fault(a + ([c] + b), Host).None?
    ensures Width(a + ([c] + b)) <= |a|
  {
  }

  lemma SameStart(a: Bytes, b: Bytes)
    requires a != [] && |a| >= Width(a) && Fault(a + b, Host).None?
    ensures Fault(a, Host).None? && Meaning(a, Host) == Meaning(a + b, Host)
  {
  }

  lemma HostParsed(s: Bytes)
    requires ParseHost(s).Ok? && ';' !in s && !Zoned(ParseHost(s).value)
    ensures HostOk(ParseHost(s).value)
  {
    hide Unescape, Survives, ValidOptionalPort, BehindLast, Fault, IndexZone, ParseZoned;
    var h := ParseHost(s).value;
    if s != [] && s[0] == '[' {
      var i := BehindLast(s, ']');
      ZonedParse(s, IndexZone(s[..i-1]), i - 1);
      assert h == Unescape(s, Host).value;
      UnescapedHost(s);
      PortKept(s, ']');
    } else {
      UnescapedHost(s);
      if ':' in s {
        PortKept(s, ':');
      }
    }
  }

  /** What follows the last mark of a kind is kept if it holds no escape. */
  lemma LastKept(s: Bytes, c: Byte)
    requires c in s && Unescape(s, Host).Ok? && Mark(c) && '%' !in s[BehindLast(s, c)..]
    ensures var h := Unescape(s, Host).value; var i, j := BehindLast(h, c), BehindLast(s, c);
            c in h && h[i..] == s[j..] && h[i-1..] == s[j-1..]
  {
    hide Unescape, BehindLast, Mark;
    var j := BehindLast(s, c);
    var a, b := s[..j-1], s[j..];
    assert s == a + ([c] + b);
    UnescapeCut(a, c, b);
    NoEscapes(b);
    var va := Unescape(a, Host).value;
    Slices(s, a, c, b);
    Slices(va + ([c] + b), va, c, b);
    BehindLastIs(va + ([c] + b), c, |va| + 1);
  }

  lemma NoEscapes(s: Bytes)
    requires Unescape(s, Host).Ok? && '%' !in s
    ensures Unescape(s, Host).value == s
  {
  }

  lemma PortKept(s: Bytes, c: Byte)
    requires c in s && Unescape(s, Host).Ok? && (c == ']' || c == ':')
    requires ValidOptionalPort(if c == ':' then s[BehindLast(s, c)-1..] else s[BehindLast(s, c)..])
    ensures var h := Unescape(s, Host).value; var i := BehindLast(h, c);
            c in h && ValidOptionalPort(if c == ':' then h[i-1..] else h[i..])
  {
    hide Unescape, BehindLast, ValidOptionalPort;
    var i := BehindLast(s, c);
    PortIsPlain(if c == ':' then s[i-1..] else s[i..]);
    assert s[i-1..] == [c] + s[i..];
    LastKept(s, c);
  }

  lemma PortIsPlain(p: Bytes)
    requires ValidOptionalPort(p)
    ensures '%' !in p
  {
  }

  /** A zone leaves its percent sign behind the bracket. */
  lemma ZonedParse(s: Bytes, zone: nat, end: nat)
    requires s != [] && s[0] == '[' && end <= |s| && zone == IndexZone(s[..end])
    ensures zone < end && ParseZoned(s, zone, end).Ok? ==> Zoned(ParseZoned(s, zone, end).value)
  {
    if zone < end && ParseZoned(s, zone, end).Ok? {
      ZoneFound(s[..end]);
      var a, b := s[..zone], s[zone..end];
      assert b[..3] == s[..end][zone..zone+3];
      assert b[0] == b[..3][0] && b[1] == b[..3][1] && b[2] == b[..3][2];
      assert s[zone] == '%';
      UnescapedHost(a);
      var h, z := Unescape(a, Host).value, Unescape(b, Zone).value;
      assert z[0] == '%';
      assert (h + z)[|h|] == '%';
    }
  }

  lemma {:induction false} ZoneFound(s: Bytes)
    requires IndexZone(s) < |s|
    ensures IndexZone(s) + 3 <= |s| && s[IndexZone(s)..IndexZone(s)+3] == "%25"
  {
    if s[..3] != "%25" {
      ZoneFound(s[1..]);
      var i := IndexZone(s[1..]);
      assert s[1..][i..i+3] == s[i+1..i+4];
    }
  }

  // The whole URI

  lemma LowerScheme(s: Bytes)
    requires HasScheme(s)
    ensures SchemeOk(Lower(Before(s, ':')))
  {
  }

  lemma AuthorityParsed(s: Bytes)
    requires ParseAuthority(s).Ok? && !Zoned(ParseAuthority(s).value.host)
    requires forall c :: c in s ==> !Delimiter(c) && c != '?'
    ensures var a := ParseAuthority(s).value;
            HostOk(a.host) && forall c :: c in a.parameter ==> !Delimiter(c) && c != '?' && c != '@'
  {
    hide ParseHost, ParseUserinfo, HostOk, Delimiter, Zoned;
    var rest := s[BehindLast(s, '@')..];
    assert forall c :: c in rest ==> c in s;
    HostParsed(Before(rest, ';'));
  }

  lemma TailParsed(tail: Bytes)
    requires forall c :: c in tail ==> !Delimiter(c)
    ensures var rest := if BareQuery(tail) then tail[..|tail|-1] else Before(tail, '?');
            forall c :: c in rest ==> !Delimiter(c) && c != '?'
    ensures forall c :: c in After(tail, '?') ==> !Delimiter(c)
  {
  }

  lemma UriParsed(s: Bytes)
    requires ParseUri(s, false).Ok? && ParseUri(s, false).value.scheme != [] && !Zoned(ParseUri(s, false).value.host)
    requires '#' !in s
    ensures Canonical(ParseUri(s, false).value)
  {
    hide ParseAuthority, HostOk, SchemeOk, Zoned, BareQuery, Lower, Before, HasScheme;
    assert HasScheme(s);
    LowerScheme(s);
    var tail := After(s, ':');
    assert forall c :: c in tail ==> c in s;
    hide After;
    TailParsed(tail);
    BareIsNotEmpty(tail);
    AuthorityParsed(if BareQuery(tail) then tail[..|tail|-1] else Before(tail, '?'));
  }

  /** Every text with a scheme that the parser accepts gives a URI that is printed and
      parsed back, unless it had a fragment or an empty password for an empty user.
      Bracketed hosts with a zone are left out. */
  lemma ReparseExactly(raw: Bytes)
    requires Parse(raw).Ok? && Parse(raw).value.scheme != [] && !Zoned(Parse(raw).value.host)
    ensures var u := Parse(raw).value;
            Parse(Print(u)) == Ok(u) <==> u.fragment == [] && !(u.user.Some? && Blank(u.user.value))
  {
    hide ParseUri, Print, HostOk, SchemeOk, Zoned;
    var u := Parse(raw).value;
    UriParsed(Before(raw, '#'));
    assert Canonical(u);
    CanonicalRoundTrip(u);
  }
}
