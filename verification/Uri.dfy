/** SIP URIs: parsing, printing and the path hint (sip/uri.go). */
module Uris {
  import opened Wrappers
  import opened Percent
  import opened Searching

  datatype UriError =
    | Escaping(error: Error)
    | ControlByte
    | EmptyUri
    | MissingScheme
    | BadUserinfo
    | MissingBracket
    | BadPort(text: Bytes)
    | LeftToNetUrl

  datatype Userinfo = Userinfo(username: Bytes, password: Option<Bytes>)

  datatype Uri = Uri(
    scheme: Bytes,
    opaqueData: Bytes,
    user: Option<Userinfo>,
    host: Bytes,
    path: Bytes,
    rawPath: Bytes,
    forceParameter: bool,
    rawParameter: Bytes,
    forceQuery: bool,
    rawQuery: Bytes,
    absolute: bool,
    fragment: Bytes,
    rawFragment: Bytes)

  const NO_URI := Uri([], [], None, [], [], [], false, [], false, [], false, [], [])

  // Searching and splitting

  /** `strings.LastIndex`: just behind the last place of `c`, or 0. */
  function BehindLast(s: Bytes, c: Byte): (i: nat)
    ensures i <= |s| && c !in s[i..] && (i > 0 ==> s[i-1] == c)
    ensures c in s <==> i > 0
  {
    if s == [] then 0 else if s[|s|-1] == c then |s| else
      var i := BehindLast(s[..|s|-1], c);
      assert s[i..] == s[..|s|-1][i..] + [s[|s|-1]];
      i
  }

  function Before(s: Bytes, c: Byte): Bytes {
    s[..Find(s, c)]
  }

  function After(s: Bytes, c: Byte): Bytes {
    if c in s then s[Find(s, c)+1..] else []
  }

  function Lower(s: Bytes): (l: Bytes)
    ensures |l| == |s|
  {
    seq(|s|, i requires 0 <= i < |s| => if 'A' <= s[i] <= 'Z' then (s[i] as int + 32) as char else s[i])
  }

  // The tests on bytes

  predicate Letter(c: Byte) {
    'a' <= c <= 'z' || 'A' <= c <= 'Z'
  }

  predicate SchemeByte(c: Byte) {
    AlphaNumeric(c) || c == '+' || c == '-' || c == '.'
  }

  predicate Control(c: Byte) {
    c as int < 32 || c as int == 127
  }

  predicate UserinfoByte(c: Byte) {
    || AlphaNumeric(c) || c == '-' || c == '.' || c == '_' || c == ':' || c == '~' || c == '!' || c == '$' || c == '&' || c == '\''
    || c == '(' || c == ')' || c == '*' || c == '+' || c == ',' || c == ';' || c == '=' || c == '%' || c == '@'
  }

  predicate PathByte(c: Byte, mode: Encoding) {
    || c == '!' || c == '$' || c == '&' || c == '\'' || c == '(' || c == ')' || c == '*' || c == '+' || c == ',' || c == ';'
    || c == '=' || c == ':' || c == '@' || c == '[' || c == ']' || c == '%' || !ShouldEscape(c, mode)
  }

  predicate ValidOptionalPort(port: Bytes) {
    port == [] || (port[0] == ':' && forall i :: 1 <= i < |port| ==> '0' <= port[i] <= '9')
  }

  predicate ValidEncoded(s: Bytes, mode: Encoding) {
    forall c :: c in s ==> PathByte(c, mode)
  }

  // Parsing

  predicate HasScheme(s: Bytes) {
    var i := Find(s, ':');
    0 < i < |s| && Letter(s[0]) && forall k :: 0 <= k < i ==> SchemeByte(s[k])
  }

  function ParseHost(host: Bytes): Result<Bytes, UriError> {
    if host != [] && host[0] == '[' then
      var i := BehindLast(host, ']');
      if i == 0 then Err(MissingBracket)
      else if !ValidOptionalPort(host[i..]) then Err(BadPort(host[i..]))
      else
        var zone := IndexZone(host[..i-1]);
        if zone < i - 1 then ParseZoned(host, zone, i - 1) else UnescapeHost(host)
    else if ':' in host && !ValidOptionalPort(host[BehindLast(host, ':')-1..]) then
      Err(BadPort(host[BehindLast(host, ':')-1..]))
    else UnescapeHost(host)
  }

  function UnescapeHost(host: Bytes): Result<Bytes, UriError> {
    match Unescape(host, Host)
    case Ok(h) => Ok(h)
    case Err(e) => Err(Escaping(e))
  }

  /** The first place of "%25", or the length. */
  function IndexZone(s: Bytes): (i: nat)
    ensures i <= |s|
  {
    if |s| < 3 then |s| else if s[..3] == "%25" then 0 else 1 + IndexZone(s[1..])
  }

  /** A bracketed address with a zone: the parts before, inside and behind it. */
  function ParseZoned(host: Bytes, zone: nat, end: nat): Result<Bytes, UriError>
    requires zone <= end <= |host|
  {
    match (Unescape(host[..zone], Host), Unescape(host[zone..end], Zone), Unescape(host[end..], Host))
    case (Err(e), _, _) => Err(Escaping(e))
    case (Ok(_), Err(e), _) => Err(Escaping(e))
    case (Ok(_), Ok(_), Err(e)) => Err(Escaping(e))
    case (Ok(h), Ok(z), Ok(p)) => Ok(h + z + p)
  }

  datatype Authority = Authority(user: Option<Userinfo>, host: Bytes, parameter: Bytes)

  function ParseAuthority(authority: Bytes): Result<Authority, UriError> {
    var i := BehindLast(authority, '@');
    var rest := authority[i..];
    var host := ParseHost(Before(rest, ';'));
    if host.Err? then Err(host.error)
    else if i == 0 then Ok(Authority(None, host.value, After(rest, ';')))
    else
      var user := ParseUserinfo(authority[..i-1]);
      if user.Err? then Err(user.error) else Ok(Authority(Some(user.value), host.value, After(rest, ';')))
  }

  function ParseUserinfo(s: Bytes): Result<Userinfo, UriError> {
    if !(forall c :: c in s ==> UserinfoByte(c)) then Err(BadUserinfo)
    else if ':' !in s then
      (match Unescape(s, UserPassword)
       case Ok(name) => Ok(Userinfo(name, None))
       case Err(e) => Err(Escaping(e)))
    else
      (match (Unescape(Before(s, ':'), UserPassword), Unescape(After(s, ':'), UserPassword))
       case (Err(e), _) => Err(Escaping(e))
       case (Ok(_), Err(e)) => Err(Escaping(e))
       case (Ok(name), Ok(password)) => Ok(Userinfo(name, Some(password))))
  }

  /** Whether the only question mark is the last byte. */
  predicate BareQuery(s: Bytes) {
    s != [] && s[|s|-1] == '?' && '?' !in s[..|s|-1]
  }

  lemma BareIsNotEmpty(s: Bytes)
    ensures BareQuery(s) ==> s != []
  {
  }

  function ParseUri(raw: Bytes, viaRequest: bool): Result<Uri, UriError> {
    if exists c :: c in raw && Control(c) then Err(ControlByte)
    else if raw == [] && viaRequest then Err(EmptyUri)
    else if raw == "*" then Ok(NO_URI.(path := "*"))
    else if raw != [] && raw[0] == ':' then Err(MissingScheme)
    else
      if HasScheme(raw) then ParseTail(Before(raw, ':'), After(raw, ':')) else ParseTail([], raw)
  }

  /** What follows the scheme. */
  function ParseTail(scheme: Bytes, tail: Bytes): Result<Uri, UriError> {
    var rest := if BareQuery(tail) then tail[..|tail|-1] else Before(tail, '?');
    if rest != [] && rest[0] == '/' then Err(LeftToNetUrl)
    else
      match ParseAuthority(rest)
      case Err(e) => Err(e)
      case Ok(Authority(user, host, parameter)) =>
        Ok(NO_URI.(scheme := Lower(scheme), user := user, host := host, rawParameter := parameter,
                   forceQuery := BareQuery(tail), rawQuery := if BareQuery(tail) then [] else After(tail, '?')))
  }

  function Parse(raw: Bytes): Result<Uri, UriError> {
    var u := ParseUri(Before(raw, '#'), false);
    var f := After(raw, '#');
    if u.Err? || f == [] then u
    else
      match Unescape(f, Fragment)
      case Err(e) => Err(Escaping(e))
      case Ok(fragment) => Ok(u.value.(fragment := fragment, rawFragment := Hint(fragment, f, Fragment)))
  }

  // Printing

  /** The raw text is kept only if it is not the default encoding. */
  function Hint(text: Bytes, raw: Bytes, mode: Encoding): Bytes {
    if raw == Escape(text, mode) then [] else raw
  }

  function EscapedPath(path: Bytes, rawPath: Bytes): Bytes {
    if rawPath != [] && ValidEncoded(rawPath, Path) && Unescape(rawPath, Path) == Ok(path) then rawPath
    else if path == "*" then "*"
    else Escape(path, Path)
  }

  /** `Userinfo.String` of net/url, with the encoding for user names. */
  function UserText(u: Userinfo): Bytes {
    if u.username == [] && (u.password.None? || u.password.value == []) then []
    else Escape(u.username, UserPassword) + if u.password.Some? then [':'] + Escape(u.password.value, UserPassword) else []
  }

  function Print(u: Uri): Bytes {
    var scheme := if u.scheme != [] then u.scheme + [':'] else [];
    PrintBody(u, scheme)
    + (if u.forceParameter || u.rawParameter != [] then [';'] + u.rawParameter else [])
    + (if u.forceQuery || u.rawQuery != [] then ['?'] + u.rawQuery else [])
    + (if u.fragment != [] then ['#'] else [])
  }

  function PrintAuthority(u: Uri): Bytes {
    (if u.absolute && (u.host != [] || u.path != [] || u.user.Some?) then ['/', '/'] else [])
    + (if u.user.Some? then UserText(u.user.value) + ['@'] else [])
    + Escape(u.host, Host)
  }

  /** Everything before the parameters. */
  function PrintBody(u: Uri, scheme: Bytes): Bytes {
    if u.opaqueData != [] then scheme + u.opaqueData
    else
      var authority := if scheme != [] || u.host != [] || u.user.Some? then PrintAuthority(u) else [];
      PathBehind(scheme + authority, EscapedPath(u.path, u.rawPath), u.host != [])
  }

  /** A path, set off from a host, and from a colon that would look like a scheme's. */
  function PathBehind(front: Bytes, path: Bytes, host: bool): Bytes {
    if path != [] && path[0] != '/' && host then front + ['/'] + path
    else if front == [] && ':' in path && '/' !in Before(path, ':') then ['.', '/'] + path
    else front + path
  }
}
