/** A canonical URI is printed and parsed back (sip/uri.go). */
module UriPrinting {
  import opened Wrappers
  import opened Percent
  import opened Searching
  import opened Uris

  // Splitting

  lemma {:induction false} BehindLastIs(s: Bytes, c: Byte, i: nat)
    requires i <= |s| && c !in s[i..] && (i > 0 ==> s[i-1] == c)
    ensures BehindLast(s, c) == i
  {
  }

  lemma SplitAt(a: Bytes, c: Byte, b: Bytes)
    requires c !in a
    ensures Before(a + [c] + b, c) == a && After(a + [c] + b, c) == b
  {
    var s := a + [c] + b;
    assert s[..|a|] == a && s[|a|] == c && s[|a|+1..] == b;
    FindIs(s, c, |a|);
  }

  lemma SplitNone(a: Bytes, c: Byte)
    requires c !in a
    ensures Before(a, c) == a && After(a, c) == []
  {
  }

  // What escaping leaves

  /** Bytes with a meaning of their own in an escaped text. */
  predicate Plain(c: Byte) {
    c != '%' && c != '+' && !('0' <= c <= '9') && !('A' <= c <= 'F')
  }

  lemma HexIsNotPlain(c: Byte)
    ensures !Plain(UPPER_HEX[c as int / 16]) && !Plain(UPPER_HEX[c as int % 16])
  {
  }

  lemma {:induction false} EscapeHas(s: Bytes, mode: Encoding, c: Byte)
    requires Plain(c)
    ensures c in Escape(s, mode) <==> c in s && !ShouldEscape(c, mode)
  {
    hide ShouldEscape, Plain;
    if s != [] {
      EscapeHas(s[1..], mode, c);
      HexIsNotPlain(s[0]);
      assert Plain(c) && !Plain('%') && !Plain('+') by { PlainIs(c); }
      assert s == [s[0]] + s[1..];
      assert c in EscapeByte(s[0], mode) <==> c == s[0] && !ShouldEscape(c, mode) by {
        if c == s[0] && c == ' ' { Escapable(c, mode); }
      }
    }
  }

  lemma PlainIs(c: Byte)
    ensures !Plain('%') && !Plain('+')
  {
  }

  lemma {:induction false} NothingToEscape(s: Bytes, mode: Encoding)
    requires !mode.QueryComponent?
    ensures (forall c :: c in s ==> !ShouldEscape(c, mode)) ==> Escape(s, mode) == s
    ensures '%' !in Escape(s, mode) ==> Escape(s, mode) == s
  {
    hide ShouldEscape;
    if s != [] {
      NothingToEscape(s[1..], mode);
      assert s == [s[0]] + s[1..];
    }
  }

  // The host

  ghost predicate PortOk(h: Bytes) {
    if h != [] && h[0] == '[' then ']' in h && ValidOptionalPort(h[BehindLast(h, ']')..])
    else ':' in h ==> ValidOptionalPort(h[BehindLast(h, ':')-1..])
  }

  /** An address in brackets that has a zone identifier. */
  predicate Zoned(h: Bytes) {
    h != [] && h[0] == '[' && '%' in h
  }

  lemma PortEscapes(p: Bytes)
    ensures ValidOptionalPort(Escape(p, Host)) <==> ValidOptionalPort(p)
  {
    NothingToEscape(p, Host);
    if ValidOptionalPort(p) {
      forall c | c in p ensures !ShouldEscape(c, Host) {
        assert c == ':' || '0' <= c <= '9';
      }
    }
    assert ValidOptionalPort(Escape(p, Host)) ==> '%' !in Escape(p, Host);
  }

  lemma MarkKept(h: Bytes, c: Byte)
    requires c == ':' || c == ']'
    ensures c in Escape(h, Host) <==> c in h
    ensures !ShouldEscape(c, Host)
  {
    EscapeHas(h, Host, c);
  }

  /** The last colon or bracket stays the last, between the escaped parts around it. */
  lemma LastEscaped(h: Bytes, c: Byte, a: Bytes, b: Bytes)
    requires (c == ':' || c == ']') && c in h && a == h[..BehindLast(h, c)-1] && b == h[BehindLast(h, c)..]
    ensures h == a + ([c] + b) && BehindLast(h, c) == |a| + 1
    ensures Escape(h, Host) == Escape(a, Host) + ([c] + Escape(b, Host))
    ensures BehindLast(Escape(h, Host), c) == |Escape(a, Host)| + 1
  {
    hide ShouldEscape, Escape, BehindLast;
    LastSplit(h, c, a, b);
    MarkKept(b, c);
    EscapedBetween(a, c, b, Host);
    LastAfter(Escape(h, Host), Escape(a, Host), c, Escape(b, Host));
  }

  lemma LastSplit(h: Bytes, c: Byte, a: Bytes, b: Bytes)
    requires c in h && a == h[..BehindLast(h, c)-1] && b == h[BehindLast(h, c)..]
    ensures h == a + ([c] + b) && BehindLast(h, c) == |a| + 1 && c !in b
  {
    hide BehindLast;
  }

  lemma LastAfter(s: Bytes, a: Bytes, c: Byte, b: Bytes)
    requires s == a + ([c] + b) && c !in b
    ensures BehindLast(s, c) == |a| + 1 && s[..|a|] == a && s[|a|..] == [c] + b && s[|a|+1..] == b
  {
    hide BehindLast;
    Slices(s, a, c, b);
    BehindLastIs(s, c, |a| + 1);
  }

  /** A byte that is not escaped stays between what is around it. */
  lemma EscapedBetween(a: Bytes, c: Byte, b: Bytes, mode: Encoding)
    requires !ShouldEscape(c, mode)
    ensures Escape([c] + b, mode) == [c] + Escape(b, mode)
    ensures Escape(a + ([c] + b), mode) == Escape(a, mode) + ([c] + Escape(b, mode))
  {
    EscapeOne(c, mode);
    hide ShouldEscape, Escape;
    EscapeAppend([c], b, mode);
    EscapeAppend(a, [c] + b, mode);
  }

  lemma Slices(s: Bytes, a: Bytes, c: Byte, b: Bytes)
    requires s == a + ([c] + b)
    ensures s[..|a|] == a && s[|a|..] == [c] + b && s[|a|] == c && s[|a|+1..] == b
  {
  }

  lemma EscapeOne(c: Byte, mode: Encoding)
    requires !ShouldEscape(c, mode)
    ensures Escape([c], mode) == [c]
  {
  }

  lemma ZoneStep(c: Byte, t: Bytes)
    requires c != '%'
    ensures IndexZone([c] + t) == 1 + IndexZone(t)
  {
    assert ([c] + t)[1..] == t;
    assert |t| >= 2 ==> ([c] + t)[..3][0] == c;
  }

  lemma {:induction false} NoZone(s: Bytes)
    requires '%' !in s
    ensures IndexZone(Escape(s, Host)) == |Escape(s, Host)|
  {
    if s != [] {
      NoZone(s[1..]);
      hide ShouldEscape, IndexZone, EscapeByte;
      ZoneByte(s[0], Escape(s[1..], Host));
    }
  }

  lemma ZoneByte(c: Byte, t: Bytes)
    requires c != '%'
    ensures IndexZone(EscapeByte(c, Host) + t) == |EscapeByte(c, Host)| + IndexZone(t)
  {
    hide ShouldEscape, IndexZone;
    var e := EscapeByte(c, Host);
    if |e| == 1 {
      ZoneStep(c, t);
    } else {
      HexDigits(c);
      ZoneStep(e[2], t);
      ZoneStep(e[1], [e[2]] + t);
      ZoneSkip(e, t);
    }
  }

  lemma ZoneSkip(e: Bytes, t: Bytes)
    requires |e| == 3 && e != "%25"
    ensures IndexZone(e + t) == 1 + IndexZone([e[1]] + ([e[2]] + t))
  {
    assert (e + t)[..3] == e && (e + t)[1..] == [e[1]] + ([e[2]] + t);
  }

  /** A printed host without a zone is read back if and only if every byte survives the
      escaping and what looks like a port is one. */
  lemma HostRoundTrip(h: Bytes)
    requires !Zoned(h)
    ensures ParseHost(Escape(h, Host)) == Ok(h) <==> PortOk(h) && forall c :: c in h ==> Survives(c, Host)
  {
    hide Unescape, Escape, ShouldEscape, IndexZone, ValidOptionalPort, Survives, BehindLast;
    EscapeRoundTrip(h, Host);
    MarkKept(h, ':');
    MarkKept(h, ']');
    BracketFirst(h);
    if h != [] && h[0] == '[' {
      if ']' in h {
        BracketedPort(h);
      }
    } else if ':' in h {
      ColonPort(h);
    }
  }

  /** A bracketed host without a zone keeps its port and gets no zone. */
  lemma BracketedPort(h: Bytes)
    requires ']' in h && '%' !in h
    ensures var e := Escape(h, Host); var i := BehindLast(e, ']');
            && i > 0 && IndexZone(e[..i-1]) == i - 1
            && (ValidOptionalPort(e[i..]) <==> ValidOptionalPort(h[BehindLast(h, ']')..]))
  {
    hide Escape, ShouldEscape, IndexZone, ValidOptionalPort, BehindLast;
    var a, b := h[..BehindLast(h, ']')-1], h[BehindLast(h, ']')..];
    LastEscaped(h, ']', a, b);
    Slices(Escape(h, Host), Escape(a, Host), ']', Escape(b, Host));
    PortEscapes(b);
    NoZone(a);
  }

  lemma ColonPort(h: Bytes)
    requires ':' in h
    ensures var e := Escape(h, Host); var i := BehindLast(e, ':');
            i > 0 && (ValidOptionalPort(e[i-1..]) <==> ValidOptionalPort(h[BehindLast(h, ':')-1..]))
  {
    var a, b := h[..BehindLast(h, ':')-1], h[BehindLast(h, ':')..];
    assert !ShouldEscape(':', Host);
    hide Escape, ShouldEscape, ValidOptionalPort, BehindLast;
    LastEscaped(h, ':', a, b);
    Slices(Escape(h, Host), Escape(a, Host), ':', Escape(b, Host));
    Slices(h, a, ':', b);
    EscapedBetween([], ':', b, Host);
    PortEscapes([':'] + b);
  }

  lemma BracketFirst(h: Bytes)
    ensures Escape(h, Host) == [] <==> h == []
    ensures h != [] ==> (Escape(h, Host)[0] == '[' <==> h[0] == '[')
  {
  }

  // The user

  /** What the program cannot print: an empty name with an empty password. */
  predicate Blank(user: Userinfo) {
    user == Userinfo([], Some([]))
  }

  lemma {:induction false} UserBytes(s: Bytes)
    ensures forall c :: c in Escape(s, UserPassword) ==> UserinfoByte(c)
  {
    if s != [] {
      UserBytes(s[1..]);
      HexDigits(s[0]);
    }
  }

  lemma UserRoundTrip(user: Userinfo)
    ensures ParseUserinfo(UserText(user)) == if Blank(user) then Ok(Userinfo([], None)) else Ok(user)
  {
    hide Unescape, Escape, ShouldEscape, UserinfoByte, Before, After;
    var name := Escape(user.username, UserPassword);
    UserBytes(user.username);
    EscapeRoundTrip(user.username, UserPassword);
    EscapeRoundTrip([], UserPassword);
    EscapeNone(UserPassword);
    Colon(user.username);
    if user.password.Some? {
      var password := Escape(user.password.value, UserPassword);
      UserBytes(user.password.value);
      EscapeRoundTrip(user.password.value, UserPassword);
      SplitAt(name, ':', password);
      assert name + [':'] + password == name + ([':'] + password);
    } else {
      assert name + [] == name;
    }
  }

  lemma Colon(s: Bytes)
    ensures ':' !in Escape(s, UserPassword) && '@' !in Escape(s, UserPassword) && UserinfoByte(':')
  {
    EscapeHas(s, UserPassword, ':');
    EscapeHas(s, UserPassword, '@');
  }
}
