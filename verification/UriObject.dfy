/** The URI object whose fields the parser and the setters assign (sip/uri.go), and the
    encoding hint kept beside the decoded path. */
module UriObjects {
  import opened Wrappers
  import opened Percent
  import opened Searching
  import opened Uris

  // The path hint

  lemma {:induction false} EscapedIsValid(s: Bytes)
    ensures ValidEncoded(Escape(s, Path), Path)
  {
    if s != [] {
      EscapedIsValid(s[1..]);
      HexDigits(s[0]);
      HexIsValid(s[0]);
    }
  }

  lemma HexIsValid(c: Byte)
    ensures PathByte(UPPER_HEX[c as int / 16], Path) && PathByte(UPPER_HEX[c as int % 16], Path)
  {
  }

  lemma Star()
    ensures Unescape("*", Path) == Ok("*") && Escape("*", Path) == "%2A"
  {
    var star: Bytes := ['*'];
    assert star[1..] == [] && Unescape([], Path) == Ok([]);
    assert Fault(star, Path).None? && Meaning(star, Path) == '*';
    assert ['*'] + [] == star;
    assert Unescape(star, Path) == Ok(star);
    assert EscapeByte('*', Path) == ['%', '2', 'A'];
    assert Escape(star, Path) == EscapeByte('*', Path) + Escape([], Path);
  }

  /** Whatever hint is kept, the escaped path stands for the path. */
  lemma EscapedPathMeansPath(path: Bytes, rawPath: Bytes)
    ensures Unescape(EscapedPath(path, rawPath), Path) == Ok(path)
  {
    hide Unescape, Escape;
    EscapeRoundTrip(path, Path);
    Star();
  }

  /** After setting a path, its escaped form is the text that was set if and only if that
      text was validly encoded and not an escaped asterisk alone. */
  lemma HintKeepsText(p: Bytes, path: Bytes)
    requires Unescape(p, Path) == Ok(path)
    ensures EscapedPath(path, Hint(path, p, Path)) == p <==> ValidEncoded(p, Path) && p != "%2A"
  {
    hide Unescape, Escape;
    EscapedIsValid(path);
    EscapeRoundTrip(path, Path);
    Star();
    assert ValidEncoded("*", Path);
    if p == [] {
      assert path == [] by { UnescapeNone(Path); }
      EscapeNone(Path);
    }
    if p == "%2A" {
      EscapeRoundTrip("*", Path);
      assert path == "*";
    }
  }

  // The object

  class URI {
    var scheme: Bytes
    var opaqueData: Bytes
    var user: Option<Userinfo>
    var host: Bytes
    var path: Bytes
    var rawPath: Bytes
    var forceParameter: bool
    var rawParameter: Bytes
    var forceQuery: bool
    var rawQuery: Bytes
    var absolute: bool
    var fragment: Bytes
    var rawFragment: Bytes

    function View(): Uri
      reads this
    {
      Uri(scheme, opaqueData, user, host, path, rawPath, forceParameter, rawParameter, forceQuery, rawQuery, absolute,
          fragment, rawFragment)
    }

    constructor ()
      ensures View() == NO_URI
    {
      scheme, opaqueData, user, host, path, rawPath := [], [], None, [], [], [];
      forceParameter, rawParameter, forceQuery, rawQuery, absolute, fragment, rawFragment := false, [], false, [], false, [], [];
    }

    constructor Copy(u: URI)
      ensures View() == u.View()
    {
      scheme, opaqueData, user, host, path, rawPath := u.scheme, u.opaqueData, u.user, u.host, u.path, u.rawPath;
      forceParameter, rawParameter, forceQuery, rawQuery := u.forceParameter, u.rawParameter, u.forceQuery, u.rawQuery;
      absolute, fragment, rawFragment := u.absolute, u.fragment, u.rawFragment;
    }

    method Clone() returns (cp: URI)
      ensures fresh(cp) && cp.View() == View()
    {
      cp := new URI.Copy(this);
    }

    /** `setPath`: nothing changes when the text cannot be unescaped. */
    method SetPath(p: Bytes) returns (err: Option<Error>)
      modifies this
      ensures err == match Unescape(p, Path) case Ok(_) => None case Err(e) => Some(e)
      ensures err.Some? ==> View() == old(View())
      ensures err.None? ==>
                && View() == old(View()).(path := Unescape(p, Path).value, rawPath := Hint(Unescape(p, Path).value, p, Path))
                && Unescape(EscapedPath(path, rawPath), Path) == Ok(path)
                && (EscapedPath(path, rawPath) == p <==> ValidEncoded(p, Path) && p != "%2A")
    {
      hide Unescape, Escape;
      var got := UnescapeString(p, Path);
      if got.Err? {
        return Some(got.error);
      }
      path := got.value;
      var escaped := EscapeString(path, Path);
      if p == escaped {
        rawPath := [];
      } else {
        rawPath := p;
      }
      EscapedPathMeansPath(path, rawPath);
      HintKeepsText(p, path);
      return None;
    }

    method EscapedForm() returns (r: Bytes)
      ensures r == EscapedPath(path, rawPath)
    {
      if rawPath != [] {
        var valid := IsValidEncoded(rawPath, Path);
        if valid {
          var p := UnescapeString(rawPath, Path);
          if p == Ok(path) {
            return rawPath;
          }
        }
      }
      if path == "*" {
        return "*";
      }
      r := EscapeString(path, Path);
    }

    method SetFragment(f: Bytes) returns (err: Option<Error>)
      modifies this
      ensures err == match Unescape(f, Fragment) case Ok(_) => None case Err(e) => Some(e)
      ensures View() == if err.Some? then old(View())
                        else old(View()).(fragment := Unescape(f, Fragment).value,
                                          rawFragment := Hint(Unescape(f, Fragment).value, f, Fragment))
    {
      hide Unescape, Escape;
      var got := UnescapeString(f, Fragment);
      if got.Err? {
        return Some(got.error);
      }
      fragment := got.value;
      var escaped := EscapeString(fragment, Fragment);
      rawFragment := if f == escaped then [] else f;
      return None;
    }

    /** `String`: the parts are appended one after the other. */
    method ToText() returns (buf: Bytes)
      ensures buf == Print(View())
    {
      hide PrintBody;
      buf := if scheme != [] then scheme + [':'] else [];
      buf := BodyText(buf);
      if forceParameter || rawParameter != [] {
        buf := buf + ([';'] + rawParameter);
      }
      if forceQuery || rawQuery != [] {
        buf := buf + (['?'] + rawQuery);
      }
      if fragment != [] {
        buf := buf + ['#'];
      }
    }

    method BodyText(front: Bytes) returns (buf: Bytes)
      requires front == [] <==> scheme == []
      ensures buf == PrintBody(View(), front)
    {
      hide PrintAuthority, EscapedPath;
      buf := front;
      if opaqueData != [] {
        buf := buf + opaqueData;
        return;
      }
      if scheme != [] || host != [] || user.Some? {
        var authority := AuthorityText();
        buf := buf + authority;
      }
      var p := EscapedForm();
      if p != [] && p[0] != '/' && host != [] {
        buf := buf + ['/'];
      }
      if buf == [] && ':' in p && '/' !in Before(p, ':') {
        buf := buf + ['.', '/'];
      }
      buf := buf + p;
    }

    method AuthorityText() returns (buf: Bytes)
      ensures buf == PrintAuthority(View())
    {
      hide Escape, UserText;
      buf := [];
      if absolute && (host != [] || path != [] || user.Some?) {
        buf := buf + ['/', '/'];
      }
      if user.Some? {
        var ui := UserinfoText(user.value);
        buf := buf + (ui + ['@']);
      }
      if host != [] {
        var h := EscapeString(host, Host);
        buf := buf + h;
      } else {
        EscapeNone(Host);
      }
    }
  }

  method UserinfoText(u: Userinfo) returns (s: Bytes)
    ensures s == UserText(u)
  {
    if u.username == [] && (u.password.None? || u.password.value == []) {
      return [];
    }
    s := EscapeString(u.username, UserPassword);
    if u.password.Some? {
      var p := EscapeString(u.password.value, UserPassword);
      s := s + ([':'] + p);
    }
  }

  // The loops over bytes

  method IsValidEncoded(s: Bytes, mode: Encoding) returns (valid: bool)
    ensures valid == ValidEncoded(s, mode)
  {
    for i := 0 to |s|
      invariant forall k :: 0 <= k < i ==> PathByte(s[k], mode)
    {
      if !PathByte(s[i], mode) {
        return false;
      }
    }
    return true;
  }

  method IsValidUserinfo(s: Bytes) returns (valid: bool)
    ensures valid == forall c :: c in s ==> UserinfoByte(c)
  {
    for i := 0 to |s|
      invariant forall k :: 0 <= k < i ==> UserinfoByte(s[k])
    {
      if !UserinfoByte(s[i]) {
        return false;
      }
    }
    return true;
  }

  method IsValidOptionalPort(port: Bytes) returns (valid: bool)
    ensures valid == ValidOptionalPort(port)
  {
    if port == [] {
      return true;
    }
    if port[0] != ':' {
      return false;
    }
    for i := 1 to |port|
      invariant forall k :: 1 <= k < i ==> '0' <= port[k] <= '9'
    {
      if port[i] < '0' || port[i] > '9' {
        return false;
      }
    }
    return true;
  }

  method ContainsControlByte(s: Bytes) returns (found: bool)
    ensures found == exists c :: c in s && Control(c)
  {
    for i := 0 to |s|
      invariant forall k :: 0 <= k < i ==> !Control(s[k])
    {
      if Control(s[i]) {
        return true;
      }
    }
    return false;
  }

  datatype SchemeSplit = NoScheme | NoName | At(i: nat)

  /** `getscheme`: where the scheme ends, if the text starts with one. */
  method GetScheme(raw: Bytes) returns (r: SchemeSplit)
    ensures r.NoName? <==> raw != [] && raw[0] == ':'
    ensures r.At? <==> HasScheme(raw)
    ensures r.At? ==> r.i == Find(raw, ':') && r.i < |raw|
  {
    for i := 0 to |raw|
      invariant forall k :: 0 <= k < i ==> SchemeByte(raw[k]) && raw[k] != ':'
      invariant i > 0 ==> Letter(raw[0])
    {
      var c := raw[i];
      assert ':' !in raw[..i];
      if 'a' <= c <= 'z' || 'A' <= c <= 'Z' {
      } else if '0' <= c <= '9' || c == '+' || c == '-' || c == '.' {
        if i == 0 {
          return NoScheme;
        }
      } else if c == ':' {
        FindIs(raw, ':', i);
        if i == 0 {
          return NoName;
        }
        return At(i);
      } else {
        return NoScheme;
      }
    }
    return NoScheme;
  }

  method ReadHost(host: Bytes) returns (r: Result<Bytes, UriError>)
    ensures r == ParseHost(host)
  {
    hide Unescape, ValidOptionalPort, IndexZone;
    if host != [] && host[0] == '[' {
      var i := BehindLast(host, ']');
      if i == 0 {
        return Err(MissingBracket);
      }
      var valid := IsValidOptionalPort(host[i..]);
      if !valid {
        return Err(BadPort(host[i..]));
      }
      var zone := IndexZone(host[..i-1]);
      if zone < i - 1 {
        r := ReadZoned(host, zone, i - 1);
        return;
      }
    } else if ':' in host {
      var port := host[BehindLast(host, ':')-1..];
      var valid := IsValidOptionalPort(port);
      if !valid {
        return Err(BadPort(port));
      }
    }
    var h := UnescapeString(host, Host);
    return match h case Ok(v) => Ok(v) case Err(e) => Err(Escaping(e));
  }

  method ReadZoned(host: Bytes, zone: nat, end: nat) returns (r: Result<Bytes, UriError>)
    requires zone <= end <= |host|
    ensures r == ParseZoned(host, zone, end)
  {
    hide Unescape;
    var h := UnescapeString(host[..zone], Host);
    if h.Err? {
      return Err(Escaping(h.error));
    }
    var z := UnescapeString(host[zone..end], Zone);
    if z.Err? {
      return Err(Escaping(z.error));
    }
    var p := UnescapeString(host[end..], Host);
    if p.Err? {
      return Err(Escaping(p.error));
    }
    return Ok(h.value + z.value + p.value);
  }

  method ReadUserinfo(s: Bytes) returns (r: Result<Userinfo, UriError>)
    ensures r == ParseUserinfo(s)
  {
    hide Unescape, UserinfoByte;
    var valid := IsValidUserinfo(s);
    if !valid {
      return Err(BadUserinfo);
    }
    if ':' !in s {
      var name := UnescapeString(s, UserPassword);
      return match name case Ok(n) => Ok(Userinfo(n, None)) case Err(e) => Err(Escaping(e));
    }
    var name := UnescapeString(Before(s, ':'), UserPassword);
    if name.Err? {
      return Err(Escaping(name.error));
    }
    var password := UnescapeString(After(s, ':'), UserPassword);
    if password.Err? {
      return Err(Escaping(password.error));
    }
    return Ok(Userinfo(name.value, Some(password.value)));
  }

  method ReadAuthority(authority: Bytes) returns (r: Result<Authority, UriError>)
    ensures r == ParseAuthority(authority)
  {
    hide ParseHost, ParseUserinfo;
    var i := BehindLast(authority, '@');
    var rest := authority[i..];
    var host := ReadHost(Before(rest, ';'));
    if host.Err? {
      return Err(host.error);
    }
    if i == 0 {
      return Ok(Authority(None, host.value, After(rest, ';')));
    }
    var user := ReadUserinfo(authority[..i-1]);
    if user.Err? {
      return Err(user.error);
    }
    return Ok(Authority(Some(user.value), host.value, After(rest, ';')));
  }

  /** `parse`, up to the point where a text with a leading slash goes to net/url. */
  method ReadUri(raw: Bytes, viaRequest: bool) returns (r: Result<URI, UriError>)
    ensures r.Ok? ==> fresh(r.value) && ParseUri(raw, viaRequest) == Ok(r.value.View())
    ensures r.Err? ==> ParseUri(raw, viaRequest) == Err(r.error)
  {
    hide ParseTail, Control, HasScheme, Find;
    var control := ContainsControlByte(raw);
    if control {
      return Err(ControlByte);
    }
    if raw == [] && viaRequest {
      return Err(EmptyUri);
    }
    if raw == "*" {
      var uri := new URI();
      uri.path := "*";
      return Ok(uri);
    }
    var split := GetScheme(raw);
    match split {
      case NoName => r := Err(MissingScheme);
      case At(i) => r := ReadTail(raw[..i], raw[i+1..]);
      case NoScheme => r := ReadTail([], raw);
    }
  }

  method ReadTail(scheme: Bytes, tail: Bytes) returns (r: Result<URI, UriError>)
    ensures r.Ok? ==> fresh(r.value) && ParseTail(scheme, tail) == Ok(r.value.View())
    ensures r.Err? ==> ParseTail(scheme, tail) == Err(r.error)
  {
    hide ParseAuthority, BareQuery, Lower, Before, After;
    BareIsNotEmpty(tail);
    var uri := new URI();
    uri.scheme := Lower(scheme);
    var rest := tail;
    if BareQuery(rest) {
      uri.forceQuery := true;
      rest := rest[..|rest|-1];
    } else {
      uri.rawQuery := After(rest, '?');
      rest := Before(rest, '?');
    }
    if rest != [] && rest[0] == '/' {
      return Err(LeftToNetUrl);
    }
    var a := ReadAuthority(rest);
    if a.Err? {
      return Err(a.error);
    }
    uri.user, uri.host, uri.rawParameter := a.value.user, a.value.host, a.value.parameter;
    return Ok(uri);
  }

  method Read(raw: Bytes) returns (r: Result<URI, UriError>)
    ensures r.Ok? ==> fresh(r.value) && Parse(raw) == Ok(r.value.View())
    ensures r.Err? ==> Parse(raw) == Err(r.error)
  {
    hide ParseUri, Unescape, Hint, Before, After;
    var frag := After(raw, '#');
    r := ReadUri(Before(raw, '#'), false);
    if r.Err? || frag == [] {
      return;
    }
    ghost var u := r.value.View();
    FragmentUnset(Before(raw, '#'));
    var err := r.value.SetFragment(frag);
    if err.Some? {
      return Err(Escaping(err.value));
    }
  }

  lemma FragmentUnset(s: Bytes)
    ensures ParseUri(s, false).Ok? ==> ParseUri(s, false).value.fragment == []
  {
  }
}
