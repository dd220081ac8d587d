/** Printing a URI and parsing it back (sip/uri.go). */
module UriRoundTrip {
  import opened Wrappers
  import opened Percent
  import opened Searching
  import opened Uris
  import opened UriPrinting

  ghost predicate HostOk(h: Bytes) {
    !Zoned(h) && ';' !in h && PortOk(h) && forall c :: c in h ==> Survives(c, Host)
  }

  predicate Delimiter(c: Byte) {
    Control(c) || c == '#'
  }

  ghost predicate SchemeOk(s: Bytes) {
    s != [] && 'a' <= s[0] <= 'z' && forall c :: c in s ==> SchemeByte(c) && !('A' <= c <= 'Z')
  }

  /** A SIP URI of the form scheme:[user@]host[;parameters][?query][#fragment]. */
  ghost predicate Canonical(u: Uri) {
    && SchemeOk(u.scheme) && HostOk(u.host)
    && u.opaqueData == [] && u.path == [] && u.rawPath == [] && !u.absolute && !u.forceParameter
    && (forall c :: c in u.rawParameter ==> !Delimiter(c) && c != '?' && c != '@')
    && (forall c :: c in u.rawQuery ==> !Delimiter(c))
    && (u.forceQuery ==> u.rawQuery == [])
    && (u.fragment == [] ==> u.rawFragment == [])
  }

  function ParameterText(u: Uri): Bytes {
    if u.rawParameter != [] then [';'] + u.rawParameter else []
  }

  function QueryText(u: Uri): Bytes {
    if u.forceQuery || u.rawQuery != [] then ['?'] + u.rawQuery else []
  }

  lemma EscapeClean(s: Bytes, mode: Encoding)
    requires mode.Host? || mode.UserPassword?
    ensures forall c :: c in Escape(s, mode) ==> !Delimiter(c) && c != '?' && c != '/' && c != '@'
  {
    hide Escape;
    forall c | c in Escape(s, mode) ensures !Delimiter(c) && c != '?' && c != '/' && c != '@' {
      if Delimiter(c) || c == '?' || c == '/' || c == '@' {
        EscapeHas(s, mode, c);
      }
    }
  }

  lemma AuthorityRoundTrip(u: Uri)
    requires Canonical(u)
    ensures ParseAuthority(PrintAuthority(u) + ParameterText(u))
         == Ok(Authority(if u.user.Some? && Blank(u.user.value) then Some(Userinfo([], None)) else u.user, u.host, u.rawParameter))
  {
    hide ParseHost, ParseUserinfo, UserText, Escape, ShouldEscape, Before, After, BehindLast, PortOk, Survives, Delimiter;
    var h, p := Escape(u.host, Host), ParameterText(u);
    HostRoundTrip(u.host);
    EscapeClean(u.host, Host);
    SemicolonKept(u.host);
    if p == [] {
      assert h + p == h;
      SplitNone(h, ';');
    } else {
      assert h + p == h + [';'] + u.rawParameter;
      SplitAt(h, ';', u.rawParameter);
    }
    if u.user.None? {
      assert PrintAuthority(u) + p == h + p;
      BehindLastIs(h + p, '@', 0);
    } else {
      var t := UserText(u.user.value);
      assert PrintAuthority(u) + p == t + (['@'] + (h + p));
      Slices(t + (['@'] + (h + p)), t, '@', h + p);
      BehindLastIs(t + (['@'] + (h + p)), '@', |t| + 1);
      UserRoundTrip(u.user.value);
    }
  }

  lemma SemicolonKept(h: Bytes)
    ensures ';' in Escape(h, Host) <==> ';' in h
  {
    EscapeHas(h, Host, ';');
  }

  /** No delimiter gets into the printed text, and it does not start a path. */
  lemma PrintedClean(u: Uri)
    requires Canonical(u)
    ensures var r := PrintAuthority(u) + ParameterText(u);
            (forall c :: c in r ==> !Delimiter(c) && c != '?') && (r != [] ==> r[0] != '/')
  {
    hide Escape, ShouldEscape, HostOk, SchemeOk;
    assert !Delimiter(';') && !Delimiter('@') && !Delimiter(':');
    EscapeClean(u.host, Host);
    if u.user.Some? {
      var t := UserText(u.user.value);
      EscapeClean(u.user.value.username, UserPassword);
      if u.user.value.password.Some? {
        EscapeClean(u.user.value.password.value, UserPassword);
      }
      assert forall c :: c in t ==> !Delimiter(c) && c != '?' && c != '/';
      var r := PrintAuthority(u) + ParameterText(u);
      assert r == t + (['@'] + Escape(u.host, Host) + ParameterText(u));
      assert r[0] == if t == [] then '@' else t[0];
      assert t != [] ==> t[0] in t;
    } else {
      var h := Escape(u.host, Host);
      assert PrintAuthority(u) == h;
      assert h != [] ==> h[0] in h;
    }
  }

  lemma QuerySplit(r: Bytes, force: bool, q: Bytes)
    requires '?' !in r && (force ==> q == [])
    ensures var tail := r + if force || q != [] then ['?'] + q else [];
            && BareQuery(tail) == force
            && (if force then tail[..|tail|-1] == r else Before(tail, '?') == r && After(tail, '?') == q)
  {
    hide Before, After;
    var tail := r + if force || q != [] then ['?'] + q else [];
    if force {
      assert tail[..|tail|-1] == r;
    } else if q != [] {
      assert tail == r + ['?'] + q;
      SplitAt(r, '?', q);
      assert tail[..|tail|-1][|r|] == '?';
    } else {
      assert tail == r;
      SplitNone(r, '?');
    }
  }

  lemma SchemeSplit(s: Bytes, tail: Bytes)
    requires SchemeOk(s)
    ensures var raw := s + [':'] + tail;
            raw[0] == s[0] && HasScheme(raw) && Before(raw, ':') == s && After(raw, ':') == tail && Lower(s) == s
    ensures forall c :: c in s ==> !Delimiter(c)
  {
    var raw := s + [':'] + tail;
    assert ':' !in s;
    SplitAt(s, ':', tail);
    assert Find(raw, ':') == |s|;
    assert forall k :: 0 <= k < |s| ==> raw[k] == s[k] && s[k] in s;
  }

  lemma PrintCanonical(u: Uri)
    requires Canonical(u)
    ensures Print(u) == u.scheme + [':'] + (PrintAuthority(u) + ParameterText(u) + QueryText(u)) + if u.fragment != [] then ['#'] else []
  {
  }

  /** What the printed text means without its fragment. */
  lemma BodyParsed(u: Uri)
    requires Canonical(u)
    ensures var body := u.scheme + [':'] + (PrintAuthority(u) + ParameterText(u) + QueryText(u));
            && '#' !in body
            && ParseUri(body, false)
               == Ok(u.(fragment := [], rawFragment := [],
                        user := if u.user.Some? && Blank(u.user.value) then Some(Userinfo([], None)) else u.user))
  {
    hide PrintAuthority, ParameterText, HostOk, SchemeOk, Before, After, ParseAuthority, HasScheme, Lower, BareQuery;
    var r := PrintAuthority(u) + ParameterText(u);
    var tail := r + QueryText(u);
    var body := u.scheme + [':'] + tail;
    PrintedClean(u);
    AuthorityRoundTrip(u);
    QuerySplit(r, u.forceQuery, u.rawQuery);
    SchemeSplit(u.scheme, tail);
    FirstOk(u.scheme);
    assert forall c :: c in body ==> !Delimiter(c);
  }

  /** A canonical URI is printed and parsed back, except that the fragment is not printed
      and that an empty password of an empty user is forgotten. */
  lemma CanonicalRoundTrip(u: Uri)
    requires Canonical(u)
    ensures Parse(Print(u)) == Ok(u) <==> u.fragment == [] && !(u.user.Some? && Blank(u.user.value))
  {
    hide PrintAuthority, HostOk, SchemeOk, Before, After, ParseUri, ParameterText, QueryText, Print;
    var body := u.scheme + [':'] + (PrintAuthority(u) + ParameterText(u) + QueryText(u));
    PrintCanonical(u);
    BodyParsed(u);
    if u.fragment != [] {
      assert body + ['#'] + [] == body + ['#'];
      SplitAt(body, '#', []);
    } else {
      assert body + [] == body;
      SplitNone(body, '#');
    }
  }

  lemma FirstOk(s: Bytes)
    requires SchemeOk(s)
    ensures s != "*" && s[0] != '*' && s[0] != ':'
  {
  }
}
